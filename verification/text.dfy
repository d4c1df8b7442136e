/** String operations the source relies on: ASCII case mapping
    (`toLowerCase`, `toUpperCase`), `includes`, `Number.toString`,
    `parseInt`/`parseFloat` restricted to integers, the UTF-16 `length`
    that the form schemas bound, and the code-point ordering used here for
    `localeCompare`.

    A Dafny `string` is a sequence of Unicode scalar values, whereas a
    JavaScript string is a sequence of UTF-16 code units: a character above
    U+FFFF is one element here and two there. */
module Text {

  function LowerChar(c: char): char {
    if 'A' <= c <= 'Z' then (c as int + 32) as char else c
  }

  function UpperChar(c: char): char {
    if 'a' <= c <= 'z' then (c as int - 32) as char else c
  }

  /** `s.toLowerCase()` on ASCII letters. */
  function Lower(s: string): (r: string)
    ensures |r| == |s|
    ensures forall i :: 0 <= i < |s| ==> r[i] == LowerChar(s[i])
  {
    if |s| == 0 then [] else [LowerChar(s[0])] + Lower(s[1..])
  }

  /** `s.includes(t)`: `t` occurs in `s` at some position. */
  predicate Includes(s: string, t: string) {
    exists i | 0 <= i <= |s| - |t| :: OccursAt(s, t, i)
  }

  /** `t` is the slice of `s` starting at `i`. */
  predicate OccursAt(s: string, t: string, i: int) {
    0 <= i && i + |t| <= |s| && s[i..i + |t|] == t
  }

  lemma IncludesEmpty(s: string)
    ensures Includes(s, "")
  {
    assert OccursAt(s, "", 0);
  }

  /** The UTF-16 code units of one character: the character itself up to
      U+FFFF, otherwise its surrogate pair. */
  function CodeUnits(c: char): (r: seq<int>)
    ensures |r| == if c as int <= 0xFFFF then 1 else 2
    ensures forall i :: 0 <= i < |r| ==> 0 <= r[i] <= 0xFFFF
  {
    if c as int <= 0xFFFF then [c as int]
    else
      var v := c as int - 0x10000;
      [0xD800 + v / 0x400, 0xDC00 + v % 0x400]
  }

  /** The UTF-16 encoding of `s`: the code units JavaScript stores. */
  function Utf16(s: string): (r: seq<int>)
    ensures forall i :: 0 <= i < |r| ==> 0 <= r[i] <= 0xFFFF
  {
    if |s| == 0 then [] else CodeUnits(s[0]) + Utf16(s[1..])
  }

  /** JavaScript's `s.length`, which zod's `min`/`max`/`length` bound: the
      number of UTF-16 code units, one per character up to U+FFFF and two
      per character above it. */
  function JsLength(s: string): (n: nat)
    ensures n == |Utf16(s)|
    ensures |s| <= n <= 2 * |s|
    ensures n == |s| <==> forall i :: 0 <= i < |s| ==> s[i] as int <= 0xFFFF
  {
    if |s| == 0 then 0
    else
      var n := |CodeUnits(s[0])| + JsLength(s[1..]);
      assert forall i :: 1 <= i < |s| ==> s[i] == s[1..][i - 1];
      n
  }

  /** Lengths add up over concatenation, as code units do in JavaScript. */
  lemma {:induction false} JsLengthAppend(a: string, b: string)
    ensures JsLength(a + b) == JsLength(a) + JsLength(b)
  {
    if |a| == 0 {
      assert a + b == b;
    } else {
      assert (a + b)[0] == a[0] && (a + b)[1..] == a[1..] + b;
      JsLengthAppend(a[1..], b);
    }
  }

  /** A character outside the Basic Multilingual Plane is one element of a
      Dafny string but a surrogate pair, of length 2, in JavaScript. */
  lemma AstralCharIsSurrogatePair()
    ensures |"\U{1F600}"| == 1
    ensures Utf16("\U{1F600}") == [0xD83D, 0xDE00]
    ensures JsLength("\U{1F600}") == 2
  {
    assert "\U{1F600}"[1..] == "";
  }

  predicate IsDigit(c: char) {
    '0' <= c <= '9'
  }

  function DigitChar(d: int): (c: char)
    requires 0 <= d < 10
    ensures IsDigit(c)
  {
    ('0' as int + d) as char
  }

  /** Decimal digits of `n`, most significant first, no leading zeros. */
  function NatToString(n: nat): (s: string)
    ensures |s| > 0
    ensures forall i :: 0 <= i < |s| ==> IsDigit(s[i])
  {
    if n < 10 then [DigitChar(n)] else NatToString(n / 10) + [DigitChar(n % 10)]
  }

  /** `n.toString()` for an integer `n`. */
  function IntToString(n: int): (s: string)
    ensures |s| > 0
  {
    if n < 0 then "-" + NatToString(-n) else NatToString(n)
  }

  /** A number as `parseInt`/`parseFloat` produce it: a value or NaN. */
  datatype Parsed = Num(value: int) | NaN {
    /** Whether JavaScript treats the number as false (`0` and `NaN`). */
    predicate Falsy() {
      NaN? || value == 0
    }
  }

  /** Length of the run of digits at the start of `s`. */
  function DigitRun(s: string): (k: nat)
    ensures k <= |s|
    ensures forall i :: 0 <= i < k ==> IsDigit(s[i])
    ensures k < |s| ==> !IsDigit(s[k])
  {
    if |s| == 0 || !IsDigit(s[0]) then 0 else 1 + DigitRun(s[1..])
  }

  /** Value of a string of decimal digits. */
  function DigitsValue(s: string): nat
    requires forall i :: 0 <= i < |s| ==> IsDigit(s[i])
  {
    if |s| == 0 then 0
    else
      assert IsDigit(s[|s| - 1]);
      DigitsValue(s[..|s| - 1]) * 10 + (s[|s| - 1] as int - '0' as int)
  }

  function ParseUnsigned(s: string): Parsed {
    var k := DigitRun(s);
    if k == 0 then NaN else Num(DigitsValue(s[..k]))
  }

  /** `parseInt(s)`: an optional sign, then the leading digits; NaN without digits. */
  function ParseNumber(s: string): Parsed {
    if |s| > 0 && s[0] == '-' then
      match ParseUnsigned(s[1..])
      case Num(v) => Num(-v)
      case NaN => NaN
    else if |s| > 0 && s[0] == '+' then ParseUnsigned(s[1..])
    else ParseUnsigned(s)
  }

  lemma {:induction false} DigitsOfNat(n: nat)
    ensures DigitsValue(NatToString(n)) == n
  {
    if n >= 10 {
      var s := NatToString(n);
      assert s[..|s| - 1] == NatToString(n / 10);
      DigitsOfNat(n / 10);
    }
  }

  /** Reading back what `toString` wrote gives the same integer. */
  lemma ParseIntToString(n: int)
    ensures ParseNumber(IntToString(n)) == Num(n)
  {
    var d := NatToString(if n < 0 then -n else n);
    assert DigitRun(d) == |d| by { DigitRunOfDigits(d); }
    assert d[..|d|] == d;
    DigitsOfNat(if n < 0 then -n else n);
    if n < 0 {
      assert IntToString(n)[1..] == d;
    }
  }

  lemma {:induction false} DigitRunOfDigits(s: string)
    requires forall i :: 0 <= i < |s| ==> IsDigit(s[i])
    ensures DigitRun(s) == |s|
  {
    if |s| > 0 {
      DigitRunOfDigits(s[1..]);
    }
  }

  /** Code-point lexicographic order: the model of `a.localeCompare(b) <= 0`.
      It differs from UTF-16 code-unit order where a character above U+FFFF
      meets one from U+E000 to U+FFFF. */
  predicate StrLe(a: string, b: string) {
    if |a| == 0 then true
    else if |b| == 0 then false
    else if a[0] != b[0] then a[0] < b[0]
    else StrLe(a[1..], b[1..])
  }

  lemma {:induction false} StrLeTotal(a: string, b: string)
    ensures StrLe(a, b) || StrLe(b, a)
  {
    if |a| > 0 && |b| > 0 && a[0] == b[0] {
      StrLeTotal(a[1..], b[1..]);
    }
  }

  lemma {:induction false} StrLeTransitive(a: string, b: string, c: string)
    requires StrLe(a, b) && StrLe(b, c)
    ensures StrLe(a, c)
  {
    if |a| > 0 && |b| > 0 && |c| > 0 && a[0] == b[0] && b[0] == c[0] {
      StrLeTransitive(a[1..], b[1..], c[1..]);
    }
  }
}
