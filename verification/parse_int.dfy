/**
 * `parseInt(s, 16)` on strings: the hex digits, their values, and the
 * parse itself with its white-space, sign and `0x` handling.
 */
module ParseInt {
  import opened Wrappers
  import opened Strings

  predicate IsHexDigit(c: char) {
    '0' <= c <= '9' || 'a' <= c <= 'f' || 'A' <= c <= 'F'
  }

  function HexDigitValue(c: char): (r: int)
    requires IsHexDigit(c)
    ensures 0 <= r < 16
  {
    if '0' <= c <= '9' then c as int - '0' as int
    else if 'a' <= c <= 'f' then c as int - 'a' as int + 10
    else c as int - 'A' as int + 10
  }

  /** The number of leading hex digits. */
  function HexRunLength(s: string): (n: nat)
    ensures n <= |s|
    ensures forall i :: 0 <= i < n ==> IsHexDigit(s[i])
    ensures n < |s| ==> !IsHexDigit(s[n])
  {
    if s != [] && IsHexDigit(s[0]) then 1 + HexRunLength(s[1..]) else 0
  }

  /** The value of a string of hex digits, most significant first. */
  function HexValue(digits: string): (r: nat)
    requires forall i :: 0 <= i < |digits| ==> IsHexDigit(digits[i])
  {
    if digits == [] then 0
    else HexValue(digits[..|digits| - 1]) * 16 + HexDigitValue(digits[|digits| - 1])
  }

  /** Whether the text after the white space starts with a minus sign. */
  predicate IsNegative(t: string) {
    t != [] && t[0] == '-'
  }

  /** The text after one leading sign. */
  function Unsigned(t: string): (r: string)
    ensures t != [] && t[0] != '-' && t[0] != '+' ==> r == t
  {
    if t != [] && (t[0] == '-' || t[0] == '+') then t[1..] else t
  }

  /** The text after a `0x` or `0X` prefix. */
  function WithoutHexPrefix(u: string): (r: string)
    ensures |u| >= 2 && u[1] != 'x' && u[1] != 'X' ==> r == u
  {
    if |u| >= 2 && u[0] == '0' && (u[1] == 'x' || u[1] == 'X') then u[2..] else u
  }

  /**
   * `parseInt(s, 16)`: leading white space is skipped, one sign is read, a
   * `0x`/`0X` prefix is dropped, and the leading hex digits are the value;
   * `None` stands for `NaN` when there are none.
   */
  function ParseIntHex(s: string): (r: Option<int>)
  {
    var t := TrimStart(s);
    var body := WithoutHexPrefix(Unsigned(t));
    var n := HexRunLength(body);
    if n == 0 then None
    else if IsNegative(t) then Some(-(HexValue(body[..n]) as int))
    else Some(HexValue(body[..n]))
  }

  /** Two hex digits have the value `16 * first + second`. */
  lemma {:induction false} HexValuePair(s: string)
    requires |s| == 2 && IsHexDigit(s[0]) && IsHexDigit(s[1])
    ensures HexValue(s) == 16 * HexDigitValue(s[0]) + HexDigitValue(s[1])
  {
    assert s[..|s| - 1] == [s[0]] && [s[0]][..0] == [];
    assert HexValue([s[0]]) == HexDigitValue(s[0]);
  }

  /**
   * `parseInt(pair, 16)` on the two-character string `a b`: two hex digits
   * are read directly as `16 * a + b`, anything else goes through the
   * general parse; `ParsePairIsParseInt` shows both agree with `ParseIntHex`.
   */
  function ParsePair(a: char, b: char): Option<int> {
    if IsHexDigit(a) && IsHexDigit(b) then Some(16 * HexDigitValue(a) + HexDigitValue(b))
    else ParseIntHex([a, b])
  }

  /** The two-character parse is `parseInt` on the string of the two characters. */
  lemma {:induction false} ParsePairIsParseInt(a: char, b: char)
    ensures ParsePair(a, b) == ParseIntHex([a, b])
  {
    if IsHexDigit(a) && IsHexDigit(b) {
      ParseHexPair(a, b);
    }
  }

  /** Two hex digits parse to the byte they spell. */
  lemma {:induction false} ParseHexPair(a: char, b: char)
    requires IsHexDigit(a) && IsHexDigit(b)
    ensures ParseIntHex([a, b]) == Some(16 * HexDigitValue(a) + HexDigitValue(b))
    ensures 0 <= 16 * HexDigitValue(a) + HexDigitValue(b) <= 255
  {
    var s := [a, b];
    assert s[0] == a && s[1] == b;
    HexDigitIsPlain(a);
    HexDigitIsPlain(b);
    TrimStartNoSpace(s);
    assert Unsigned(s) == s;
    assert WithoutHexPrefix(s) == s;
    HexRunPair(s);
    assert s[..2] == s;
    HexValuePair(s);
    assert !IsNegative(s);
  }

  /** A hex digit is neither white space, nor a sign, nor the `x` of a prefix. */
  lemma {:induction false} HexDigitIsPlain(c: char)
    requires IsHexDigit(c)
    ensures !IsJsSpace(c) && c != '-' && c != '+' && c != 'x' && c != 'X'
  {
  }

  /** Text that does not start with white space is left as it is by `trimStart`. */
  lemma {:induction false} TrimStartNoSpace(s: string)
    requires s != [] && !IsJsSpace(s[0])
    ensures TrimStart(s) == s
  {
  }

  /** Two hex digits are a run of length two. */
  lemma {:induction false} HexRunPair(s: string)
    requires |s| == 2 && IsHexDigit(s[0]) && IsHexDigit(s[1])
    ensures HexRunLength(s) == 2
  {
    var t := s[1..];
    assert t[0] == s[1];
    var u := t[1..];
    assert u == [];
    assert HexRunLength(u) == 0;
    assert HexRunLength(t) == 1;
  }
}
