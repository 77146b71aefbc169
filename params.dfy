/** `parse_params` (main.py): validate the parsed query string of a stats
    request. Every parameter arrives as a list of strings; only the first
    string of each list is read. `int()` and `datetime_to_ts` are given as
    partial functions, `None` standing for the exception they raise. */
module Params {
  import opened Wrappers
  import VastDb

  /** The exceptions `parse_params` lets escape. `DateError` is whatever
      `datetime_to_ts` raises on a date it cannot read. */
  datatype ParamError =
    | IndexError
    | MachineIdRequired
    | MachineIdNotInteger(given: string)
    | DateError(given: string)

  /** What `parse_qs` returns: each key with the list of its values. */
  type Query = map<string, seq<string>>

  datatype Parsed = Parsed(machineId: int, fromTs: Option<int>, toTs: Option<int>)

  /** `params.get(key, [None])[0]`: `None` for a missing key, and indexing
      an empty list raises. */
  function FirstValue(params: Query, key: string): (r: Result<Option<string>, ParamError>)
    ensures r.Err? <==> key in params && |params[key]| == 0
    ensures r.Ok? ==> (r.value.None? <==> key !in params)
    ensures r.Ok? && r.value.Some? ==> r.value.value == params[key][0]
  {
    if key !in params then Ok(None)
    else if |params[key]| == 0 then Err(IndexError)
    else Ok(Some(params[key][0]))
  }

  /** A date string is truthy when it is present and not empty. */
  predicate Truthy(d: Option<string>) {
    d.Some? && |d.value| > 0
  }

  /** `datetime_to_ts(date) if date else None`. */
  function OptionalTs(d: Option<string>, dateToTs: string -> Option<int>): Result<Option<int>, ParamError> {
    if !Truthy(d) then Ok(None)
    else match dateToTs(d.value)
      case Some(ts) => Ok(Some(ts))
      case None => Err(DateError(d.value))
  }

  function ParseParams(params: Query, toInt: string -> Option<int>, dateToTs: string -> Option<int>)
    : (r: Result<Parsed, ParamError>)
    ensures r.Ok? ==> "machine_id" in params && |params["machine_id"]| > 0
                      && toInt(params["machine_id"][0]) == Some(r.value.machineId)
    ensures r.Ok? && r.value.fromTs.Some? ==>
      "from" in params && |params["from"]| > 0 && |params["from"][0]| > 0
      && dateToTs(params["from"][0]) == r.value.fromTs
    ensures r.Ok? && r.value.toTs.Some? ==>
      "to" in params && |params["to"]| > 0 && |params["to"][0]| > 0
      && dateToTs(params["to"][0]) == r.value.toTs
    ensures r == Err(MachineIdRequired) ==> "machine_id" !in params
  {
    var m := FirstValue(params, "machine_id");
    if m.Err? then Err(m.error)
    else
      var f := FirstValue(params, "from");
      if f.Err? then Err(f.error)
      else
        var t := FirstValue(params, "to");
        if t.Err? then Err(t.error)
        else if m.value.None? then Err(MachineIdRequired)
        else match toInt(m.value.value)
          case None => Err(MachineIdNotInteger(m.value.value))
          case Some(id) =>
            var ft := OptionalTs(f.value, dateToTs);
            if ft.Err? then Err(ft.error)
            else
              var tt := OptionalTs(t.value, dateToTs);
              if tt.Err? then Err(tt.error)
              else Ok(Parsed(id, ft.value, tt.value))
  }

  /** The three lists can all be indexed. */
  predicate Indexable(params: Query) {
    && ("machine_id" in params ==> |params["machine_id"]| > 0)
    && ("from" in params ==> |params["from"]| > 0)
    && ("to" in params ==> |params["to"]| > 0)
  }

  /** The first value of a key, `None` when the key is absent. */
  function First(params: Query, key: string): Option<string>
    requires key in params ==> |params[key]| > 0
  {
    if key in params then Some(params[key][0]) else None
  }

  /** Indexing an empty list fails before any value is looked at. */
  lemma EmptyListFails(params: Query, toInt: string -> Option<int>, dateToTs: string -> Option<int>)
    requires !Indexable(params)
    ensures ParseParams(params, toInt, dateToTs) == Err(IndexError)
  {
  }

  /** A missing `machine_id` is reported. */
  lemma MissingMachineId(params: Query, toInt: string -> Option<int>, dateToTs: string -> Option<int>)
    requires Indexable(params) && "machine_id" !in params
    ensures ParseParams(params, toInt, dateToTs) == Err(MachineIdRequired)
  {
  }

  /** A `machine_id` that `int()` rejects is reported with its text, before
      any date is read. */
  lemma MachineIdNotAnInteger(params: Query, toInt: string -> Option<int>, dateToTs: string -> Option<int>)
    requires Indexable(params) && "machine_id" in params
    requires toInt(params["machine_id"][0]).None?
    ensures ParseParams(params, toInt, dateToTs) == Err(MachineIdNotInteger(params["machine_id"][0]))
  {
  }

  /** The outcome in full: success exactly when the lists can be indexed,
      the machine id is present and an integer, and every truthy date can be
      read; then the machine id is that integer and each date is its
      timestamp, or `None` when it is absent or empty. */
  lemma ParseParamsOutcome(params: Query, toInt: string -> Option<int>, dateToTs: string -> Option<int>)
    ensures var r := ParseParams(params, toInt, dateToTs);
      r.Ok? <==>
        && Indexable(params)
        && "machine_id" in params
        && toInt(params["machine_id"][0]).Some?
        && OptionalTs(First(params, "from"), dateToTs).Ok?
        && OptionalTs(First(params, "to"), dateToTs).Ok?
    ensures var r := ParseParams(params, toInt, dateToTs);
      r.Ok? ==>
        && r.value.machineId == toInt(params["machine_id"][0]).value
        && r.value.fromTs == (if Truthy(First(params, "from")) then dateToTs(params["from"][0]) else None)
        && r.value.toTs == (if Truthy(First(params, "to")) then dateToTs(params["to"][0]) else None)
  {
    if Indexable(params) {
      assert FirstValue(params, "machine_id") == Ok(First(params, "machine_id"));
      assert FirstValue(params, "from") == Ok(First(params, "from"));
      assert FirstValue(params, "to") == Ok(First(params, "to"));
    }
  }

  /** Only the first value of each list matters, and no other key does. */
  lemma OnlyFirstValues(p: Query, q: Query, toInt: string -> Option<int>, dateToTs: string -> Option<int>)
    requires Indexable(p) && Indexable(q)
    requires forall k :: k in ["machine_id", "from", "to"] ==> (k in p <==> k in q)
    requires forall k :: k in ["machine_id", "from", "to"] && k in p ==> p[k][0] == q[k][0]
    ensures ParseParams(p, toInt, dateToTs) == ParseParams(q, toInt, dateToTs)
  {
    assert "machine_id" in ["machine_id", "from", "to"];
    assert "from" in ["machine_id", "from", "to"];
    assert "to" in ["machine_id", "from", "to"];
    assert FirstValue(p, "machine_id") == FirstValue(q, "machine_id");
    assert FirstValue(p, "from") == FirstValue(q, "from");
    assert FirstValue(p, "to") == FirstValue(q, "to");
  }

  /** An empty date is skipped: it does not reach `datetime_to_ts`. */
  lemma EmptyDateIsNone(params: Query, toInt: string -> Option<int>, dateToTs: string -> Option<int>)
    requires Indexable(params) && "machine_id" in params && toInt(params["machine_id"][0]).Some?
    requires "from" in params && params["from"][0] == ""
    requires !Truthy(First(params, "to"))
    ensures ParseParams(params, toInt, dateToTs) == Ok(Parsed(toInt(params["machine_id"][0]).value, None, None))
  {
    ParseParamsOutcome(params, toInt, dateToTs);
  }

  /** A date whose timestamp is 0 is parsed, but the query built from it
      carries no `from` bound, since 0 is falsy there. */
  lemma EpochDateDropsBound(params: Query, toInt: string -> Option<int>, dateToTs: string -> Option<int>, tbl: string)
    requires Indexable(params) && "machine_id" in params && toInt(params["machine_id"][0]).Some?
    requires "from" in params && |params["from"][0]| > 0 && dateToTs(params["from"][0]) == Some(0)
    requires !Truthy(First(params, "to"))
    ensures var r := ParseParams(params, toInt, dateToTs);
      && r.Ok? && r.value.fromTs == Some(0)
      && VastDb.SqlQuery(r.value.machineId, tbl, r.value.fromTs, r.value.toTs)
         == VastDb.BaseQuery(r.value.machineId, tbl)
  {
    ParseParamsOutcome(params, toInt, dateToTs);
    var r := ParseParams(params, toInt, dateToTs);
    VastDb.QueryWithoutBounds(r.value.machineId, tbl, r.value.fromTs, r.value.toTs);
  }
}
