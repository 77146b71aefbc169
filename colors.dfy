/** `Colors.get` (static/script.js): a colour picker that walks the palette
    object in key order and hands out the next colour on every call. */
module Colors {
  import opened Wrappers

  /** `Colors.names`, in property order. */
  const Palette: seq<(string, string)> := [("red", "#ff0000"), ("blue", "#0000ff"), ("green", "#00ff00")]

  /** The quotient of `a / n` truncated toward zero. */
  function TruncDiv(a: int, n: int): int
    requires n > 0
  {
    if a >= 0 then a / n else -((-a) / n)
  }

  /** JavaScript's `a % n`: the remainder left by the truncated quotient, so
      it takes the sign of `a`. */
  function JsRem(a: int, n: int): (r: int)
    requires n > 0
    ensures -n < r < n
    ensures a >= 0 ==> r >= 0
    ensures a < 0 ==> r <= 0
    ensures a == n * TruncDiv(a, n) + r
  {
    if a >= 0 then a % n else -((-a) % n)
  }

  /** What one call returns for a given `count`: the colour at that position
      of the palette, undefined when the position is outside it. */
  function ColorAt(count: int): (r: Option<string>)
    ensures r.Some? <==> 0 <= count < |Palette|
    ensures r.Some? ==> r.value == Palette[count].1
  {
    if 0 <= count < |Palette| then Some(Palette[count].1) else None
  }

  /** The counter after one call. */
  function NextCount(count: int): (r: int)
    ensures count >= -1 ==> r == (count + 1) % |Palette|
    ensures 0 <= count < |Palette| ==> 0 <= r < |Palette|
    ensures -|Palette| < r < |Palette|
  {
    JsRem(count + 1, |Palette|)
  }

  /** The counter after `k` calls. */
  function CountAfter(count: int, k: nat): int {
    if k == 0 then count else NextCount(CountAfter(count, k - 1))
  }

  class ColorPicker {
    var count: int

    /** `Colors.count = 0`. */
    constructor ()
      ensures count == 0
    {
      count := 0;
    }

    method Get() returns (result: Option<string>)
      modifies this
      ensures result == ColorAt(old(count))
      ensures count == NextCount(old(count))
    {
      result := None;
      var position := -1;
      var k := 0;
      while k < |Palette|
        invariant 0 <= k <= |Palette|
        invariant position == k - 1
        invariant result == if 0 <= count < k then Some(Palette[count].1) else None
      {
        position := position + 1;
        if count == position {
          result := Some(Palette[k].1);
        }
        k := k + 1;
      }
      count := JsRem(count + 1, |Palette|);
    }
  }

  /** From a counter inside the palette, the counter stays inside it and the
      call returns a colour. */
  lemma CountStaysInRange(count: int)
    requires 0 <= count < |Palette|
    ensures 0 <= NextCount(count) < |Palette|
    ensures ColorAt(count).Some?
  {
  }

  /** Starting from the constructor's 0, after `k` calls the counter is
      `k mod 3`, so the colours cycle red, blue, green. */
  lemma {:induction false} CountAfterFromZero(k: nat)
    ensures CountAfter(0, k) == k % |Palette|
    ensures ColorAt(CountAfter(0, k)) == Some(Palette[k % |Palette|].1)
  {
    if k > 0 {
      CountAfterFromZero(k - 1);
      assert (k - 1) % 3 + 1 == 3 ==> k % 3 == 0;
    }
  }

  /** A fresh picker returns red, blue, green and red again. */
  method FirstFourColors() returns (colors: seq<Option<string>>)
    ensures colors == [Some("#ff0000"), Some("#0000ff"), Some("#00ff00"), Some("#ff0000")]
  {
    var picker := new ColorPicker();
    var a := picker.Get();
    var b := picker.Get();
    var c := picker.Get();
    var d := picker.Get();
    colors := [a, b, c, d];
  }
}
