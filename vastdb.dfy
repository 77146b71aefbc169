/** `_get_sql_query` and the result assembly of `VastDB.get_machine_stats`
    (src/vastdb.py). The database is a parameter `run` that maps a query
    to the JSON text `request_to_json` would return for it. */
module VastDb {
  import opened Wrappers
  import opened Decimal
  import opened Text
  import opened Seqs

  /** A time bound is truthy when it is present and not 0. */
  predicate Truthy(b: Option<int>) {
    b.Some? && b.value != 0
  }

  const WherePrefix: string := " WHERE machine_id="
  const FromMarker: string := " AND timestamp >= "
  const ToMarker: string := " AND timestamp <= "

  /** The query text up to the machine id. */
  function Head(tbl: string): string {
    "SELECT * FROM " + tbl + WherePrefix
  }

  function BaseQuery(machineId: int, tbl: string): string {
    Head(tbl) + IntStr(machineId)
  }

  function BoundPart(marker: string, b: Option<int>): string {
    if Truthy(b) then marker + IntStr(b.value) else ""
  }

  /** The query `_get_sql_query` returns. */
  function SqlQuery(machineId: int, tbl: string, fromTs: Option<int>, toTs: Option<int>): (q: string)
    ensures StartsWith(q, BaseQuery(machineId, tbl))
    ensures !Truthy(fromTs) && !Truthy(toTs) ==> q == BaseQuery(machineId, tbl)
  {
    ConcatParts(BaseQuery(machineId, tbl), BoundPart(FromMarker, fromTs) + BoundPart(ToMarker, toTs));
    BaseQuery(machineId, tbl) + (BoundPart(FromMarker, fromTs) + BoundPart(ToMarker, toTs))
  }

  method GetSqlQuery(machineId: int, tbl: string, fromTs: Option<int>, toTs: Option<int>)
    returns (query: string)
    ensures query == SqlQuery(machineId, tbl, fromTs, toTs)
  {
    query := "SELECT * FROM " + tbl + WherePrefix + IntStr(machineId);
    ghost var base := query;
    if Truthy(fromTs) {
      query := query + (FromMarker + IntStr(fromTs.value));
    }
    ghost var withFrom := query;
    if Truthy(toTs) {
      query := query + (ToMarker + IntStr(toTs.value));
    }
    assert withFrom == base + BoundPart(FromMarker, fromTs);
    assert query == withFrom + BoundPart(ToMarker, toTs);
    ConcatAssoc(base, BoundPart(FromMarker, fromTs), BoundPart(ToMarker, toTs));
  }

  /** Every query selects from the table and filters on the machine id. */
  lemma QueryStartsWithBase(machineId: int, tbl: string, fromTs: Option<int>, toTs: Option<int>)
    ensures StartsWith(SqlQuery(machineId, tbl, fromTs, toTs), BaseQuery(machineId, tbl))
  {
    var b := BaseQuery(machineId, tbl);
    var bounds := BoundPart(FromMarker, fromTs) + BoundPart(ToMarker, toTs);
    ConcatParts(b, bounds);
  }

  /** Without truthy bounds the query is the base query; 0 counts as absent. */
  lemma QueryWithoutBounds(machineId: int, tbl: string, fromTs: Option<int>, toTs: Option<int>)
    requires !Truthy(fromTs) && !Truthy(toTs)
    ensures SqlQuery(machineId, tbl, fromTs, toTs) == BaseQuery(machineId, tbl)
  {
  }

  /** The bound a query carries: the truthy ones, others dropped. */
  function Carried(b: Option<int>): Option<int> {
    if Truthy(b) then b else None
  }

  /** Read one optional `marker` + number part; the number runs up to the
      next space. */
  function ReadBound(s: string, marker: string): (Option<int>, string) {
    if StartsWith(s, marker) then
      var v := TakeUntil(s[|marker|..], ' ');
      (ParseInt(v), s[|marker| + |v|..])
    else (None, s)
  }

  /** Reading a query for a known table back into its machine id and bounds. */
  function QueryFields(tbl: string, q: string): (Option<int>, Option<int>, Option<int>) {
    var head := Head(tbl);
    if !StartsWith(q, head) then (None, None, None)
    else
      var rest := q[|head|..];
      var id := TakeUntil(rest, ' ');
      var (f, rest2) := ReadBound(rest[|id|..], FromMarker);
      var (t, _) := ReadBound(rest2, ToMarker);
      (ParseInt(id), f, t)
  }

  lemma ReadBoundPart(marker: string, b: Option<int>, rest: string)
    requires |rest| == 0 || rest[0] == ' '
    requires !StartsWith(rest, marker)
    ensures ReadBound(BoundPart(marker, b) + rest, marker) == (Carried(b), rest)
  {
    if Truthy(b) {
      var n := IntStr(b.value);
      var s := marker + n + rest;
      assert BoundPart(marker, b) + rest == s;
      assert s[..|marker|] == marker;
      assert s[|marker|..] == n + rest;
      IntStrChars(b.value, ' ');
      TakeUntilConcat(n, rest, ' ');
      assert s[|marker| + |n|..] == rest;
      IntStrRoundTrip(b.value);
    } else {
      assert BoundPart(marker, b) + rest == rest;
    }
  }

  /** A `to` part never reads as a `from` part: the markers differ in the
      comparison sign. */
  lemma ToPartIsNotFrom(toTs: Option<int>)
    ensures !StartsWith(BoundPart(ToMarker, toTs), FromMarker)
  {
    var t := BoundPart(ToMarker, toTs);
    if Truthy(toTs) {
      assert t[15] == ToMarker[15] == '<';
      assert FromMarker[15] == '>';
    }
  }

  lemma MarkerShape()
    ensures FromMarker[0] == ' ' && ToMarker[0] == ' '
    ensures |FromMarker| == |ToMarker| == 18
  {
  }

  lemma BoundPartShape(marker: string, b: Option<int>)
    requires |marker| > 0 && marker[0] == ' '
    ensures var p := BoundPart(marker, b); |p| == 0 || p[0] == ' '
  {
  }

  /** After the head, the machine id is read up to the first space and the
      bound parts follow it. */
  lemma ReadMachineId(machineId: int, tbl: string, fromTs: Option<int>, toTs: Option<int>)
    ensures var q := SqlQuery(machineId, tbl, fromTs, toTs);
      var n := IntStr(machineId);
      var bounds := BoundPart(FromMarker, fromTs) + BoundPart(ToMarker, toTs);
      && StartsWith(q, Head(tbl))
      && TakeUntil(q[|Head(tbl)|..], ' ') == n
      && q[|Head(tbl)|..][|n|..] == bounds
  {
    var head := Head(tbl);
    var n := IntStr(machineId);
    var bounds := BoundPart(FromMarker, fromTs) + BoundPart(ToMarker, toTs);
    ConcatAssoc(head, n, bounds);
    ConcatParts(head, n + bounds);
    ConcatParts(n, bounds);
    MarkerShape();
    BoundPartShape(FromMarker, fromTs);
    BoundPartShape(ToMarker, toTs);
    IntStrChars(machineId, ' ');
    TakeUntilConcat(n, bounds, ' ');
  }

  /** The bound parts read back as the bounds they carry. */
  lemma ReadBounds(fromTs: Option<int>, toTs: Option<int>)
    ensures var toPart := BoundPart(ToMarker, toTs);
      && ReadBound(BoundPart(FromMarker, fromTs) + toPart, FromMarker) == (Carried(fromTs), toPart)
      && ReadBound(toPart, ToMarker) == (Carried(toTs), "")
  {
    var toPart := BoundPart(ToMarker, toTs);
    MarkerShape();
    BoundPartShape(ToMarker, toTs);
    ToPartIsNotFrom(toTs);
    ReadBoundPart(FromMarker, fromTs, toPart);
    assert toPart + "" == toPart;
    ReadBoundPart(ToMarker, toTs, "");
  }

  /** The machine id and both bounds can be read back from the query; a
      bound that is 0 or absent reads back as absent, and the `from` bound
      always precedes the `to` bound. */
  lemma QueryRoundTrip(machineId: int, tbl: string, fromTs: Option<int>, toTs: Option<int>)
    ensures QueryFields(tbl, SqlQuery(machineId, tbl, fromTs, toTs))
         == (Some(machineId), Carried(fromTs), Carried(toTs))
  {
    ReadMachineId(machineId, tbl, fromTs, toTs);
    ReadBounds(fromTs, toTs);
    IntStrRoundTrip(machineId);
  }

  /** The per-machine tables with time bounds, in the order they are queried. */
  const TsTables: seq<string> := ["rent_ts", "reliability_ts", "cost_ts", "hardware_ts", "avg_ts"]
  /** The snapshot tables, queried for the whole history. */
  const SnpTables: seq<string> := ["eod_snp", "disk_snp", "cpu_ram_snp"]

  /** Every table in query order. */
  function Tables(): (ts: seq<string>)
    ensures |ts| == 8
  {
    TsTables + SnpTables
  }

  lemma TablesDistinct()
    ensures Distinct(Tables())
  {
    var ts := Tables();
    assert ts[0][1] == 'e' && ts[1][1] == 'e' && ts[2][1] == 'o' && ts[3][1] == 'a';
    assert ts[4][1] == 'v' && ts[5][1] == 'o' && ts[6][1] == 'i' && ts[7][1] == 'p';
    assert ts[0][2] == 'n' && ts[1][2] == 'l';
    assert ts[2][0] == 'c' && ts[5][0] == 'e';
  }

  /** An insertion-ordered dictionary from table name to JSON text. */
  type Dict = seq<(string, string)>

  function DictKeys(d: Dict): (ks: seq<string>)
    ensures |ks| == |d|
    ensures forall i :: 0 <= i < |d| ==> ks[i] == d[i].0
  {
    seq(|d|, i requires 0 <= i < |d| => d[i].0)
  }

  /** `d[k] = v`: replace the value in place when `k` is a key, otherwise
      append the pair. */
  function DictSet(d: Dict, k: string, v: string): (r: Dict)
    ensures k !in DictKeys(d) ==> r == d + [(k, v)]
  {
    if |d| == 0 then [(k, v)]
    else if d[0].0 == k then [(k, v)] + d[1..]
    else
      assert DictKeys(d[1..]) == DictKeys(d)[1..];
      [d[0]] + DictSet(d[1..], k, v)
  }

  /** The query for the `i`-th table: the time-series tables get the bounds,
      the snapshot tables none. */
  function TableQuery(machineId: int, fromTs: Option<int>, toTs: Option<int>, i: nat): string
    requires i < 8
  {
    if i < |TsTables| then SqlQuery(machineId, Tables()[i], fromTs, toTs)
    else SqlQuery(machineId, Tables()[i], None, None)
  }

  /** The dictionary `get_machine_stats` builds. */
  function StatsEntries(machineId: int, fromTs: Option<int>, toTs: Option<int>, run: string -> string): (d: Dict)
    ensures |d| == 8
    ensures forall i :: 0 <= i < 8 ==> d[i].0 == Tables()[i]
  {
    seq(8, i requires 0 <= i < 8 => (Tables()[i], run(TableQuery(machineId, fromTs, toTs, i))))
  }

  /** `f'"{k}": {v}'`. */
  function Piece(e: (string, string)): string {
    "\"" + e.0 + "\": " + e.1
  }

  function Pieces(d: Dict): (ps: seq<string>)
    ensures |ps| == |d|
    ensures forall i :: 0 <= i < |d| ==> ps[i] == Piece(d[i])
  {
    seq(|d|, i requires 0 <= i < |d| => Piece(d[i]))
  }

  /** `'{' + ','.join(pieces) + '}'`. */
  function Envelope(d: Dict): (e: string)
    ensures |e| >= 2 && e[0] == '{' && e[|e| - 1] == '}'
  {
    "{" + Join(",", Pieces(d)) + "}"
  }

  method GetMachineStats(machineId: int, fromTs: Option<int>, toTs: Option<int>, run: string -> string)
    returns (json: string)
    ensures json == Envelope(StatsEntries(machineId, fromTs, toTs, run))
  {
    var result: Dict := [];
    for i := 0 to |TsTables|
      invariant result == StatsEntries(machineId, fromTs, toTs, run)[..i]
    {
      var tbl := TsTables[i];
      var q := GetSqlQuery(machineId, tbl, fromTs, toTs);
      assert tbl == Tables()[i];
      EnterTable(machineId, fromTs, toTs, run, result, i, q);
      result := DictSet(result, tbl, run(q));
    }
    for i := 0 to |SnpTables|
      invariant result == StatsEntries(machineId, fromTs, toTs, run)[..|TsTables| + i]
    {
      var tbl := SnpTables[i];
      var q := GetSqlQuery(machineId, tbl, None, None);
      assert tbl == Tables()[|TsTables| + i];
      EnterTable(machineId, fromTs, toTs, run, result, |TsTables| + i, q);
      result := DictSet(result, tbl, run(q));
    }
    assert result == StatsEntries(machineId, fromTs, toTs, run);
    var pieces: seq<string> := [];
    for i := 0 to |result|
      invariant pieces == Pieces(result)[..i]
    {
      pieces := pieces + [Piece(result[i])];
    }
    assert pieces == Pieces(result);
    json := "{" + Join(",", pieces) + "}";
  }

  /** One loop step: the `i`-th table is not yet a key, so `d[k] = v`
      appends its entry. */
  lemma EnterTable(machineId: int, fromTs: Option<int>, toTs: Option<int>, run: string -> string,
                   d: Dict, i: nat, q: string)
    requires i < 8 && d == StatsEntries(machineId, fromTs, toTs, run)[..i]
    requires q == TableQuery(machineId, fromTs, toTs, i)
    ensures DictSet(d, Tables()[i], run(q)) == StatsEntries(machineId, fromTs, toTs, run)[..i + 1]
  {
    var spec := StatsEntries(machineId, fromTs, toTs, run);
    TablesDistinct();
    assert forall j :: 0 <= j < i ==> DictKeys(d)[j] == Tables()[j];
    assert Tables()[i] !in DictKeys(d);
    assert spec[..i + 1] == spec[..i] + [spec[i]];
  }

  /** Eight keys: the five time-series tables in order, then the three
      snapshot tables. The time-series tables get the bounds; the snapshot
      tables get the bare base query. */
  lemma StatsKeysAndQueries(machineId: int, fromTs: Option<int>, toTs: Option<int>, run: string -> string)
    ensures var d := StatsEntries(machineId, fromTs, toTs, run);
      && DictKeys(d) == TsTables + SnpTables
      && (forall i :: 0 <= i < 5 ==> d[i].1 == run(SqlQuery(machineId, TsTables[i], fromTs, toTs)))
      && (forall i :: 5 <= i < 8 ==> d[i].1 == run(BaseQuery(machineId, SnpTables[i - 5])))
  {
    var d := StatsEntries(machineId, fromTs, toTs, run);
    assert DictKeys(d) == Tables();
    forall i | 0 <= i < 5
      ensures d[i].1 == run(SqlQuery(machineId, TsTables[i], fromTs, toTs))
    {
      assert Tables()[i] == TsTables[i];
      assert d[i].1 == run(TableQuery(machineId, fromTs, toTs, i));
    }
    forall i | 5 <= i < 8
      ensures d[i].1 == run(BaseQuery(machineId, SnpTables[i - 5]))
    {
      assert Tables()[i] == SnpTables[i - 5];
      assert d[i].1 == run(TableQuery(machineId, fromTs, toTs, i));
      QueryWithoutBounds(machineId, Tables()[i], None, None);
    }
  }

  lemma {:induction false} JoinSnoc(sep: string, xs: seq<string>, y: string)
    requires |xs| > 0
    ensures Join(sep, xs + [y]) == Join(sep, xs) + sep + y
  {
    if |xs| == 1 {
      assert xs + [y] == [xs[0], y];
      assert [xs[0], y][1..] == [y];
    } else {
      assert (xs + [y])[1..] == xs[1..] + [y];
      JoinSnoc(sep, xs[1..], y);
    }
  }

  /** The envelope opens with the first table's piece and closes with the
      last one's, separated from their neighbours by commas. */
  lemma EnvelopeEnds(d: Dict)
    requires |d| >= 2
    ensures var e := Envelope(d);
      && StartsWith(e, "{" + Piece(d[0]) + ",")
      && EndsWith(e, "," + Piece(d[|d| - 1]) + "}")
  {
    var ps := Pieces(d);
    var e := Envelope(d);
    var inner := Join(",", ps);
    assert inner == ps[0] + "," + Join(",", ps[1..]);
    assert e == ("{" + ps[0] + ",") + (Join(",", ps[1..]) + "}");
    var last := ps[|ps| - 1];
    assert ps == ps[..|ps| - 1] + [last];
    JoinSnoc(",", ps[..|ps| - 1], last);
    assert e == ("{" + Join(",", ps[..|ps| - 1])) + ("," + last + "}");
    ConcatParts("{" + Join(",", ps[..|ps| - 1]), "," + last + "}");
    ConcatParts("{" + ps[0] + ",", Join(",", ps[1..]) + "}");
  }

  /** The JSON text of a machine's statistics starts with the `rent_ts` piece
      and ends with the `cpu_ram_snp` piece. */
  lemma StatsEnvelope(machineId: int, fromTs: Option<int>, toTs: Option<int>, run: string -> string)
    ensures var e := Envelope(StatsEntries(machineId, fromTs, toTs, run));
      var first := Piece(("rent_ts", run(SqlQuery(machineId, "rent_ts", fromTs, toTs))));
      var last := Piece(("cpu_ram_snp", run(BaseQuery(machineId, "cpu_ram_snp"))));
      && StartsWith(e, "{" + first + ",")
      && EndsWith(e, "," + last + "}")
  {
    var d := StatsEntries(machineId, fromTs, toTs, run);
    StatsKeysAndQueries(machineId, fromTs, toTs, run);
    EnvelopeEnds(d);
  }
}
