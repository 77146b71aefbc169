/** The values the dashboard script (static/script.js) handles: numbers that
    may be undefined or non-finite, timestamps that may be undefined, the
    `[timestamps, values]` pair of a series, and the object that maps
    metric names to series. */
module JsValues {

  /** A number slot of a JavaScript array. `Undefined` is what an
      out-of-range read or `.at(-1)` of an empty array gives. Finite numbers
      are modelled as exact reals (no rounding, no negative zero). */
  datatype Value = Undefined | Finite(x: real) | PosInf | NegInf | NaN

  /** A timestamp slot: an integer, or undefined (`[].at(-1)`). */
  datatype Stamp = NoStamp | Ts(t: int)

  /** The `[timestamps, values]` pair the script passes around. */
  datatype Series = Series(ts: seq<Stamp>, vals: seq<Value>)

  /** One property of the series object, in the object's key order. */
  datatype Entry = Entry(key: string, series: Series)

  /** A JavaScript object whose properties are series: its entries in
      insertion order. `Object.keys` lists them in that order when no key is
      integer-like, which holds for the metric names used here. */
  type Table = seq<Entry>

  function Keys(t: Table): (ks: seq<string>)
    ensures |ks| == |t|
    ensures forall i :: 0 <= i < |t| ==> ks[i] == t[i].key
  {
    if |t| == 0 then [] else [t[0].key] + Keys(t[1..])
  }

  lemma KeysPrefix(t: Table, n: nat)
    requires n <= |t|
    ensures Keys(t[..n]) == Keys(t)[..n]
  {
  }

  /** Reassigning a property keeps the key order. */
  lemma KeysUpdate(t: Table, i: nat, e: Entry)
    requires i < |t| && e.key == t[i].key
    ensures Keys(t[i := e]) == Keys(t)
  {
  }

  /** An object never holds one key twice. */
  predicate WellKeyed(t: Table) {
    forall i, j :: 0 <= i < j < |t| ==> t[i].key != t[j].key
  }

  /** `s[i]` on a JavaScript array of numbers. */
  function ValueAt(s: seq<Value>, i: int): (v: Value)
    ensures 0 <= i < |s| ==> v == s[i]
    ensures !(0 <= i < |s|) ==> v == Undefined
  {
    if 0 <= i < |s| then s[i] else Undefined
  }

  /** `s.at(-1)`: the last element, undefined when `s` is empty. */
  function LastValue(s: seq<Value>): (v: Value)
    ensures |s| > 0 ==> v == s[|s| - 1]
    ensures |s| == 0 ==> v == Undefined
  {
    ValueAt(s, |s| - 1)
  }

  /** JavaScript's `a / b`. Undefined operands convert to NaN. */
  function Div(a: Value, b: Value): (r: Value)
    ensures a.Finite? && b.Finite? && b.x != 0.0 ==> r == Finite(a.x / b.x)
    ensures b == Finite(0.0) ==> !r.Finite?
    ensures a.Undefined? || b.Undefined? || a.NaN? || b.NaN? ==> r == NaN
    ensures r.Finite? ==> a.Finite?
  {
    match (a, b)
    case (Finite(x), Finite(y)) =>
      if y != 0.0 then Finite(x / y)
      else if x > 0.0 then PosInf
      else if x < 0.0 then NegInf
      else NaN
    case (Finite(_), PosInf) => Finite(0.0)
    case (Finite(_), NegInf) => Finite(0.0)
    case (PosInf, Finite(y)) => if y >= 0.0 then PosInf else NegInf
    case (NegInf, Finite(y)) => if y >= 0.0 then NegInf else PosInf
    case (_, _) => NaN
  }
}
