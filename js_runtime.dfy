/** The few JavaScript built-ins the worklist table relies on, written out so
    that the display rules can be stated exactly: truthiness of optional
    strings, the `||` fallback, `String(n)` on numbers (including `NaN`),
    `padStart`, `substring` and `charAt`. A decimal reader is the partner of
    `String(n)`: it reads back what `String(n)` writes. */
module JsRuntime {
  import opened Wrappers

  /** A string field is truthy when it is present and not the empty string. */
  predicate Truthy(v: Option<string>) {
    v.Some? && v.value != ""
  }

  /** `v || fallback` on an optional string field. */
  function OrElse(v: Option<string>, fallback: string): (r: string)
    ensures fallback != "" ==> r != ""
  {
    if Truthy(v) then v.value else fallback
  }

  /** The first truthy string among `candidates`, or the empty string: the
      meaning of a chain `a || b || ... || ''`. */
  function FirstTruthy(candidates: seq<Option<string>>): string {
    if candidates == [] then ""
    else if Truthy(candidates[0]) then candidates[0].value
    else FirstTruthy(candidates[1..])
  }

  /** What `FirstTruthy` promises: it is empty, or it is the value of the
      first truthy candidate and every candidate before it is falsy. */
  lemma {:induction false} FirstTruthyIsFirst(candidates: seq<Option<string>>)
    ensures FirstTruthy(candidates) == "" <==> forall i :: 0 <= i < |candidates| ==> !Truthy(candidates[i])
    ensures FirstTruthy(candidates) != "" ==>
      exists k :: 0 <= k < |candidates| && Truthy(candidates[k]) && candidates[k].value == FirstTruthy(candidates)
        && forall i :: 0 <= i < k ==> !Truthy(candidates[i])
  {
    if candidates != [] && !Truthy(candidates[0]) {
      var rest := candidates[1..];
      FirstTruthyIsFirst(rest);
      assert forall i :: 1 <= i < |candidates| ==> candidates[i] == rest[i - 1];
      if FirstTruthy(rest) != "" {
        var k :| 0 <= k < |rest| && Truthy(rest[k]) && rest[k].value == FirstTruthy(rest)
          && forall i :: 0 <= i < k ==> !Truthy(rest[i]);
        assert Truthy(candidates[k + 1]);
        assert forall i :: 0 <= i < k + 1 ==> !Truthy(candidates[i]) by {
          forall i | 0 <= i < k + 1 ensures !Truthy(candidates[i]) {
            if i > 0 { assert candidates[i] == rest[i - 1]; }
          }
        }
      }
    }
  }

  /** A chain of one or two fallbacks ending in '' is `FirstTruthy`. */
  lemma FirstTruthyShort(a: Option<string>, b: Option<string>)
    ensures FirstTruthy([a]) == OrElse(a, "")
    ensures FirstTruthy([a, b]) == OrElse(a, OrElse(b, ""))
  {
    assert [a][1..] == [];
    assert [a, b][1..] == [b];
    assert [b][1..] == [];
  }

  predicate IsDigit(c: char) {
    '0' <= c <= '9'
  }

  predicate AllDigits(s: string) {
    forall i :: 0 <= i < |s| ==> IsDigit(s[i])
  }

  function DigitChar(d: nat): (c: char)
    requires d < 10
    ensures IsDigit(c)
  {
    ('0' as int + d) as char
  }

  function DigitValue(c: char): nat
    requires IsDigit(c)
  {
    c as int - '0' as int
  }

  /** `String(n)` for a non-negative integer: its decimal digits, without
      leading zeros. */
  function NatToDecimal(n: nat): (s: string)
    ensures |s| >= 1 && AllDigits(s)
    ensures |s| == 1 <==> n < 10
    ensures s[0] == '0' ==> n == 0
    ensures n < 100 ==> |s| <= 2
    decreases n
  {
    if n < 10 then [DigitChar(n)] else NatToDecimal(n / 10) + [DigitChar(n % 10)]
  }

  /** Reads a string of decimal digits (the empty string reads as 0). */
  function ParseDecimal(s: string): nat
    requires AllDigits(s)
  {
    if s == [] then 0 else ParseDecimal(s[..|s| - 1]) * 10 + DigitValue(s[|s| - 1])
  }

  /** Reading back the digits `String(n)` writes gives `n`. */
  lemma {:induction false} ParseNatToDecimal(n: nat)
    ensures ParseDecimal(NatToDecimal(n)) == n
  {
    if n >= 10 {
      var s := NatToDecimal(n);
      ParseNatToDecimal(n / 10);
      assert s[..|s| - 1] == NatToDecimal(n / 10);
      assert DigitValue(s[|s| - 1]) == n % 10;
    }
  }

  /** `String(n)` for an integer number: a minus sign before the digits of a
      negative number. */
  function IntToString(n: int): (s: string)
    ensures |s| >= 1
    ensures s[0] == '-' <==> n < 0
    ensures s[0] == '0' ==> s == "0"
  {
    if n < 0 then "-" + NatToDecimal(-n) else NatToDecimal(n)
  }

  /** Reads an optionally signed decimal integer; `None` for anything else. */
  function ParseInteger(s: string): Option<int> {
    if |s| >= 2 && s[0] == '-' && AllDigits(s[1..]) then Some(0 - ParseDecimal(s[1..]))
    else if |s| >= 1 && AllDigits(s) then Some(ParseDecimal(s) as int)
    else None
  }

  /** `String(n)` loses nothing: reading it back gives `n`. */
  lemma IntToStringRoundTrip(n: int)
    ensures ParseInteger(IntToString(n)) == Some(n)
  {
    var s := IntToString(n);
    if n < 0 {
      var digits := NatToDecimal(-n);
      assert s == "-" + digits && s[1..] == digits;
      ParseNatToDecimal(-n);
      assert ParseInteger(s) == Some(0 - ParseDecimal(digits));
    } else {
      assert s == NatToDecimal(n) && IsDigit(s[0]);
      ParseNatToDecimal(n);
      assert ParseInteger(s) == Some(ParseDecimal(s) as int);
    }
  }

  /** A JavaScript number as the date getters return it: an integer, or
      `NaN` when the date is invalid. */
  datatype JsNumber = Num(n: int) | NaN

  /** `String(x)` for a number. */
  function NumberToString(x: JsNumber): string {
    match x
    case Num(n) => IntToString(n)
    case NaN => "NaN"
  }

  /** `x + k`; `NaN` absorbs the addition. */
  function AddInt(x: JsNumber, k: int): JsNumber {
    match x
    case Num(n) => Num(n + k)
    case NaN => NaN
  }

  function Repeat(c: char, n: nat): (r: string)
    ensures |r| == n && forall i :: 0 <= i < n ==> r[i] == c
  {
    if n == 0 then "" else [c] + Repeat(c, n - 1)
  }

  /** `s.padStart(width, fill)` with a one-character filler: `s` when it is
      at least `width` long, otherwise `s` behind enough copies of `fill` to
      reach `width`. */
  function PadStart(s: string, width: nat, fill: char): (r: string)
    ensures |r| == if |s| >= width then |s| else width
    ensures r[|r| - |s|..] == s
    ensures forall i :: 0 <= i < |r| - |s| ==> r[i] == fill
  {
    if |s| >= width then s else Repeat(fill, width - |s|) + s
  }

  /** `s.substring(0, n)`. */
  function Prefix(s: string, n: nat): (r: string)
    ensures |r| == if |s| <= n then |s| else n
    ensures r <= s
  {
    if |s| <= n then s else s[..n]
  }

  /** `s.charAt(0)`: the first character, or the empty string. It is the
      one-character prefix, `s.substring(0, 1)`. */
  function FirstChar(s: string): (r: string)
    ensures r <= s && |r| == (if s == "" then 0 else 1)
    ensures r == Prefix(s, 1)
  {
    if |s| > 0 then [s[0]] else ""
  }
}
