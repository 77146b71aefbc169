/** `hexToRGBA` (static/script.js): read the red, green and blue pairs of a
    `#rrggbb` colour with `parseInt(..., 16)` and print an `rgba(...)` string. */
module HexColor {
  import opened Wrappers
  import opened Decimal
  import opened Text

  /** `s.slice(start, end)` for non-negative bounds: both are clamped to the
      length, and an empty string comes back when `start >= end`. */
  function Slice(s: string, start: nat, end: nat): (r: string)
    ensures end <= |s| && start <= end ==> r == s[start..end]
    ensures |r| <= |s|
  {
    var b := if start < |s| then start else |s|;
    var e := if end < |s| then end else |s|;
    if b < e then s[b..e] else ""
  }

  /** The characters `parseInt` skips before the number: white space and
      line terminators. */
  predicate IsJsSpace(c: char) {
    var n := c as int;
    (9 <= n <= 13) || n == 0x20 || n == 0xA0 || n == 0x1680
    || (0x2000 <= n <= 0x200A) || n == 0x2028 || n == 0x2029
    || n == 0x202F || n == 0x205F || n == 0x3000 || n == 0xFEFF
  }

  function TrimStart(s: string): (r: string)
    ensures |r| <= |s|
  {
    if |s| > 0 && IsJsSpace(s[0]) then TrimStart(s[1..]) else s
  }

  /** The value of a hexadecimal digit of either case. */
  function HexDigitValue(c: char): (v: Option<nat>)
    ensures v.Some? ==> v.value < 16
  {
    if '0' <= c <= '9' then Some(c as int - '0' as int)
    else if 'a' <= c <= 'f' then Some(c as int - 'a' as int + 10)
    else if 'A' <= c <= 'F' then Some(c as int - 'A' as int + 10)
    else None
  }

  /** The longest prefix made of hexadecimal digits. */
  function HexPrefix(s: string): (r: string)
    ensures |r| <= |s|
    ensures forall i :: 0 <= i < |r| ==> HexDigitValue(r[i]).Some?
  {
    if |s| > 0 && HexDigitValue(s[0]).Some? then [s[0]] + HexPrefix(s[1..]) else ""
  }

  /** The prefix is the longest one: it is a prefix of `s`, and the next
      character, if any, is not a digit. */
  lemma {:induction false} HexPrefixIsLongest(s: string)
    ensures var r := HexPrefix(s);
      && r == s[..|r|]
      && (|r| < |s| ==> HexDigitValue(s[|r|]).None?)
  {
    if |s| > 0 && HexDigitValue(s[0]).Some? {
      HexPrefixIsLongest(s[1..]);
    }
  }

  /** Trimming leaves a suffix that starts with a non-space. */
  lemma {:induction false} TrimStartIsSuffix(s: string)
    ensures var r := TrimStart(s);
      && r == s[|s| - |r|..]
      && (|r| > 0 ==> !IsJsSpace(r[0]))
  {
    if |s| > 0 && IsJsSpace(s[0]) {
      TrimStartIsSuffix(s[1..]);
    }
  }

  predicate AllHex(s: string) {
    forall i :: 0 <= i < |s| ==> HexDigitValue(s[i]).Some?
  }

  /** The number a string of hexadecimal digits denotes. */
  function HexValue(s: string): nat
    requires AllHex(s)
  {
    if |s| == 0 then 0 else 16 * HexValue(s[..|s| - 1]) + HexDigitValue(s[|s| - 1]).value
  }

  /** `parseInt(s, 16)`: skip leading white space, read an optional sign and
      an optional `0x`/`0X` prefix, then the longest run of hexadecimal
      digits. `None` is NaN, which is what an empty run gives. */
  function ParseIntHex(s: string): (r: Option<int>)
    ensures |s| == 0 ==> r.None?
    ensures |s| > 0 && AllHex(s) ==> r == Some(HexValue(s))
  {
    DigitsOnly(s);
    var t := TrimStart(s);
    var negative := |t| > 0 && t[0] == '-';
    var unsigned := if |t| > 0 && (t[0] == '-' || t[0] == '+') then t[1..] else t;
    var body := if |unsigned| >= 2 && unsigned[0] == '0' && (unsigned[1] == 'x' || unsigned[1] == 'X')
                then unsigned[2..] else unsigned;
    var digits := HexPrefix(body);
    if |digits| == 0 then None
    else if negative then Some(0 - HexValue(digits))
    else Some(HexValue(digits) as int)
  }

  /** A string made only of hexadecimal digits has no space, sign or `0x`
      in front, and its longest digit prefix is all of it. */
  lemma {:induction false} DigitsOnly(s: string)
    ensures AllHex(s) ==> HexPrefix(s) == s
    ensures AllHex(s) && |s| > 0 ==> TrimStart(s) == s && s[0] != '-' && s[0] != '+'
    ensures AllHex(s) && |s| > 1 ==> s[1] != 'x' && s[1] != 'X'
  {
    if AllHex(s) && |s| > 0 {
      assert AllHex(s[1..]) by {
        assert forall i :: 0 <= i < |s| - 1 ==> s[1..][i] == s[i + 1];
      }
      DigitsOnly(s[1..]);
      DigitNotSpace(s[0]);
      if |s| > 1 {
        DigitNotSpace(s[1]);
      }
    }
  }

  /** `'' + n` for the result of `parseInt`: NaN prints as `NaN`. */
  function NumberStr(n: Option<int>): string {
    if n.None? then "NaN" else IntStr(n.value)
  }

  /** `alpha` is concatenated as given, so it is passed as its string form. */
  function HexToRGBA(hex: string, alpha: string): (r: string)
    ensures StartsWith(r, "rgba(") && EndsWith(r, ", " + alpha + ")")
    ensures |hex| <= 1 ==> r == "rgba(NaN, NaN, NaN, " + alpha + ")"
  {
    var red := ParseIntHex(Slice(hex, 1, 3));
    var green := ParseIntHex(Slice(hex, 3, 5));
    var blue := ParseIntHex(Slice(hex, 5, 7));
    RgbaShape(NumberStr(red), NumberStr(green), NumberStr(blue), alpha);
    "rgba(" + NumberStr(red) + ", " + NumberStr(green) + ", " + NumberStr(blue) + ", " + alpha + ")"
  }

  lemma RgbaShape(r: string, g: string, b: string, alpha: string)
    ensures var s := "rgba(" + r + ", " + g + ", " + b + ", " + alpha + ")";
      StartsWith(s, "rgba(") && EndsWith(s, ", " + alpha + ")")
  {
    var s := "rgba(" + r + ", " + g + ", " + b + ", " + alpha + ")";
    var mid := r + ", " + g + ", " + b;
    var tail := ", " + alpha + ")";
    assert s == "rgba(" + (mid + tail);
    assert s == ("rgba(" + mid) + tail;
    ConcatParts("rgba(", mid + tail);
    ConcatParts("rgba(" + mid, tail);
  }

  /** The lower-case digit for 0..15. */
  function HexDigit(d: nat): (c: char)
    requires d < 16
    ensures HexDigitValue(c) == Some(d)
  {
    if d < 10 then ('0' as int + d) as char else ('a' as int + d - 10) as char
  }

  /** Two lower-case hexadecimal digits for a byte. */
  function Byte2(v: nat): (s: string)
    requires v < 256
    ensures |s| == 2
  {
    [HexDigit(v / 16), HexDigit(v % 16)]
  }

  /** The `#rrggbb` form of a colour. */
  function HexOf(r: nat, g: nat, b: nat): (s: string)
    requires r < 256 && g < 256 && b < 256
    ensures |s| == 7
  {
    "#" + Byte2(r) + Byte2(g) + Byte2(b)
  }

  lemma DigitNotSpace(c: char)
    requires HexDigitValue(c).Some?
    ensures !IsJsSpace(c) && c != '-' && c != '+' && c != 'x' && c != 'X'
  {
  }

  /** Two hexadecimal digits parse to their value. */
  lemma ParseTwoDigits(s: string)
    requires |s| == 2 && HexDigitValue(s[0]).Some? && HexDigitValue(s[1]).Some?
    ensures ParseIntHex(s) == Some(16 * HexDigitValue(s[0]).value + HexDigitValue(s[1]).value)
  {
    DigitNotSpace(s[0]);
    DigitNotSpace(s[1]);
    assert TrimStart(s) == s;
    assert s[1..] == [s[1]] && s[1..][1..] == "";
    assert HexPrefix(s) == s;
    assert s[..1] == [s[0]] && [s[0]][..0] == [];
    assert HexValue([s[0]]) == HexDigitValue(s[0]).value;
    assert HexValue(s) == 16 * HexValue([s[0]]) + HexDigitValue(s[1]).value;
    var t := TrimStart(s);
    assert !(|t| > 0 && (t[0] == '-' || t[0] == '+'));
    assert !(t[0] == '0' && (t[1] == 'x' || t[1] == 'X'));
  }

  /** A single hexadecimal digit parses to its value. */
  lemma ParseOneDigit(c: char)
    requires HexDigitValue(c).Some?
    ensures ParseIntHex([c]) == Some(HexDigitValue(c).value)
  {
    DigitNotSpace(c);
    assert TrimStart([c]) == [c];
    assert [c][1..] == "";
    assert HexPrefix([c]) == [c];
    assert [c][..0] == [];
    assert HexValue([c]) == HexDigitValue(c).value;
    var t := TrimStart([c]);
    assert !(|t| > 0 && (t[0] == '-' || t[0] == '+'));
  }

  /** Two hexadecimal digits parse back to the byte they print. */
  lemma ParseByte2(v: nat)
    requires v < 256
    ensures ParseIntHex(Byte2(v)) == Some(v)
  {
    ParseTwoDigits(Byte2(v));
  }

  /** Printing a colour as `#rrggbb` and converting it gives back its three
      components in decimal. */
  lemma HexRoundTrip(r: nat, g: nat, b: nat, alpha: string)
    requires r < 256 && g < 256 && b < 256
    ensures HexToRGBA(HexOf(r, g, b), alpha)
         == "rgba(" + IntStr(r) + ", " + IntStr(g) + ", " + IntStr(b) + ", " + alpha + ")"
  {
    var h := HexOf(r, g, b);
    assert h == "#" + Byte2(r) + Byte2(g) + Byte2(b);
    assert h[1..3] == Byte2(r);
    assert h[3..5] == Byte2(g);
    assert h[5..7] == Byte2(b);
    ParseByte2(r);
    ParseByte2(g);
    ParseByte2(b);
  }

  lemma Decimal255()
    ensures IntStr(255) == "255" && IntStr(15) == "15" && IntStr(0) == "0"
  {
    assert NatStr(2) == "2" && NatStr(1) == "1";
    assert NatStr(25) == "25";
  }

  /** The first palette colour. */
  lemma RedExample()
    ensures HexToRGBA("#ff0000", "0.5") == "rgba(255, 0, 0, 0.5)"
  {
    RedSlices();
    ParseTwoDigits("ff");
    ParseTwoDigits("00");
    Decimal255();
    RedText();
  }

  lemma RedSlices()
    ensures Slice("#ff0000", 1, 3) == "ff" && Slice("#ff0000", 3, 5) == "00" && Slice("#ff0000", 5, 7) == "00"
  {
  }

  lemma RedText()
    ensures "rgba(" + "255" + ", " + "0" + ", " + "0" + ", " + "0.5" + ")" == "rgba(255, 0, 0, 0.5)"
  {
  }

  /** Upper-case digits are read the same way. */
  lemma UpperCaseExample()
    ensures HexToRGBA("#FF0000", "1") == HexToRGBA("#ff0000", "1")
  {
    var u := "#FF0000";
    var l := "#ff0000";
    assert u[1..3] == ['F', 'F'] && u[3..5] == ['0', '0'] && u[5..7] == ['0', '0'];
    assert l[1..3] == ['f', 'f'] && l[3..5] == ['0', '0'] && l[5..7] == ['0', '0'];
    ParseTwoDigits("FF");
    ParseTwoDigits("ff");
  }

  /** A short form is not expanded: `#fff` reads `ff`, `f` and an empty
      slice, and the empty slice prints as NaN. */
  lemma ShortFormExample()
    ensures HexToRGBA("#fff", "1") == "rgba(255, 15, NaN, 1)"
  {
    ShortSlices();
    ParseTwoDigits("ff");
    ParseOneDigit('f');
    assert ParseIntHex("") == None;
    Decimal255();
    ShortText();
  }

  lemma ShortSlices()
    ensures Slice("#fff", 1, 3) == "ff" && Slice("#fff", 3, 5) == ['f'] && Slice("#fff", 5, 7) == ""
  {
  }

  lemma ShortText()
    ensures "rgba(" + "255" + ", " + "15" + ", " + "NaN" + ", " + "1" + ")" == "rgba(255, 15, NaN, 1)"
  {
  }
}
