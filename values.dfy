/** Python 2 value semantics that the validators depend on: the cell values an
    attribute cursor hands back, and what `str()`, `strip()`, `upper()` and
    `lower()` make of them. Several checks compare `str(value)` against fixed
    text, so the rendering of numbers is spelled out here. */
module Values {

  datatype Option<+T> = None | Some(value: T)

  /** A cell read through a cursor: NULL (Python None), an integer, a double
      (kept as an exact real) or text. */
  datatype Value = Null | Int(i: int) | Real(r: real) | Str(s: string)

  predicate IsDigit(c: char) { '0' <= c <= '9' }

  predicate AllDigits(s: string) { forall k :: 0 <= k < |s| ==> IsDigit(s[k]) }

  function Digit(d: nat): (c: char)
    requires d < 10
    ensures IsDigit(c) && c as int == '0' as int + d
  {
    ('0' as int + d) as char
  }

  /** Decimal text of a natural number as `str()` prints it: digits only and
      no leading zero. */
  function NatToStr(n: nat): (s: string)
    ensures |s| >= 1 && AllDigits(s)
    ensures (s[0] == '0') == (n == 0)
    ensures (|s| == 1) == (n < 10)
    decreases n
  {
    if n < 10 then [Digit(n)] else NatToStr(n / 10) + [Digit(n % 10)]
  }

  /** `str()` of a Python int: an optional minus sign, then the digits. */
  function IntToStr(i: int): (s: string)
  {
    if i < 0 then "-" + NatToStr(-i) else NatToStr(i)
  }

  /** Fraction digits of `f` (0 <= f < 1), most significant first, cut off
      after `budget` digits and without trailing zeros. */
  function FracDigits(f: real, budget: nat): (s: string)
    requires 0.0 <= f < 1.0
    ensures AllDigits(s)
    decreases budget
  {
    if budget == 0 || f == 0.0 then ""
    else
      var d := (f * 10.0).Floor;
      [Digit(d)] + FracDigits(f * 10.0 - d as real, budget - 1)
  }

  /** `str()` of a double, in fixed-point notation with at least one fraction
      digit ("5.0", "0.25", "-3.5"). */
  function RealToStr(r: real): (s: string)
    ensures '.' in s
  {
    var a := if r < 0.0 then -r else r;
    var w := a.Floor;
    var frac := FracDigits(a - w as real, 12);
    (if r < 0.0 then "-" else "") + NatToStr(w) + "." + (if frac == "" then "0" else frac)
  }

  /** Python's `str(v)`. */
  function ToStr(v: Value): string
  {
    match v
    case Null => "None"
    case Int(i) => IntToStr(i)
    case Real(r) => RealToStr(r)
    case Str(s) => s
  }

  /** The validators' idiom `str(v) if v is not None else ""`. */
  function TextOrEmpty(v: Value): string
  {
    if v.Null? then "" else ToStr(v)
  }

  lemma {:induction false} NatToStrInjective(a: nat, b: nat)
    requires NatToStr(a) == NatToStr(b)
    ensures a == b
    decreases a
  {
    if a >= 10 && b >= 10 {
      var sa, sb := NatToStr(a), NatToStr(b);
      assert NatToStr(a / 10) == sa[..|sa| - 1];
      assert NatToStr(b / 10) == sb[..|sb| - 1];
      NatToStrInjective(a / 10, b / 10);
      assert Digit(a % 10) == sa[|sa| - 1] == Digit(b % 10);
    } else if a < 10 && b < 10 {
      assert Digit(a) == NatToStr(a)[0];
    }
  }

  /** `str(v)` is the canonical decimal text of `n` exactly when `v` is the
      integer `n` or is already that text: a double, a negative number, None
      or a zero-padded string never is. */
  lemma StrIsDecimal(v: Value, n: nat)
    ensures ToStr(v) == NatToStr(n) <==> v == Int(n) || v == Str(NatToStr(n))
  {
    var t := NatToStr(n);
    match v
    case Null =>
      assert !IsDigit(ToStr(v)[0]);
    case Int(i) =>
      if i < 0 {
        assert ToStr(v)[0] == '-';
      } else if ToStr(v) == t {
        NatToStrInjective(i, n);
      }
    case Real(r) =>
    case Str(s) =>
  }

  /** A double never prints as a bare decimal number, so `str(x) != "0"` holds
      for every double x, zero included. */
  lemma RealNeverDecimal(r: real, n: nat)
    ensures ToStr(Real(r)) != NatToStr(n)
  {
    StrIsDecimal(Real(r), n);
  }

  predicate StartsWith(s: string, p: string)
  {
    |p| <= |s| && s[..|p|] == p
  }

  predicate EndsWith(s: string, p: string)
  {
    |p| <= |s| && s[|s| - |p|..] == p
  }

  /** Python's `x in s` for strings: `x` occurs as a contiguous substring. */
  predicate Contains(s: string, x: string)
    decreases |s|
  {
    StartsWith(s, x) || (|s| > 0 && Contains(s[1..], x))
  }

  lemma {:induction false} ContainsAppend(s: string, t: string, x: string)
    requires Contains(s, x)
    ensures Contains(s + t, x)
    decreases |s|
  {
    if StartsWith(s, x) {
      assert (s + t)[..|x|] == s[..|x|];
    } else {
      ContainsAppend(s[1..], t, x);
      assert (s + t)[1..] == s[1..] + t;
    }
  }

  /** When `x` occurs in `s`, every character of `x` occurs in `s`. */
  lemma {:induction false} ContainsWitness(s: string, x: string, c: char)
    requires Contains(s, x) && c in x
    ensures c in s
    decreases |s|
  {
    if StartsWith(s, x) {
      var k :| 0 <= k < |x| && x[k] == c;
      assert s[k] == c;
    } else {
      ContainsWitness(s[1..], x, c);
    }
  }

  predicate IsUpper(c: char) { 'A' <= c <= 'Z' }
  predicate IsLower(c: char) { 'a' <= c <= 'z' }

  function LowerChar(c: char): char
  {
    if IsUpper(c) then (c as int + 32) as char else c
  }

  function UpperChar(c: char): char
  {
    if IsLower(c) then (c as int - 32) as char else c
  }

  /** `s.lower()` on ASCII text. */
  function Lower(s: string): (t: string)
    ensures |t| == |s|
    ensures forall k :: 0 <= k < |s| ==> t[k] == LowerChar(s[k])
  {
    seq(|s|, k requires 0 <= k < |s| => LowerChar(s[k]))
  }

  /** `s.upper()` on ASCII text. */
  function Upper(s: string): (t: string)
    ensures |t| == |s|
    ensures forall k :: 0 <= k < |s| ==> t[k] == UpperChar(s[k])
  {
    seq(|s|, k requires 0 <= k < |s| => UpperChar(s[k]))
  }

  lemma LowerAppend(s: string, t: string)
    ensures Lower(s + t) == Lower(s) + Lower(t)
  {
    assert forall k :: 0 <= k < |s + t| ==> Lower(s + t)[k] == (Lower(s) + Lower(t))[k];
  }

  /** Lower-cased text holds no upper-case letter. */
  lemma LowerHasNoUpper(s: string, c: char)
    requires c in Lower(s)
    ensures !IsUpper(c)
  {
    var k :| 0 <= k < |Lower(s)| && Lower(s)[k] == c;
    assert c == LowerChar(s[k]);
  }

  /** The whitespace set of Python's `str.strip()`. */
  predicate IsSpace(c: char)
  {
    c == ' ' || c == '\t' || c == '\n' || c == '\r' || c as int == 11 || c as int == 12
  }

  function TrimLeft(s: string): (t: string)
    ensures |t| <= |s| && (|t| > 0 ==> !IsSpace(t[0]))
    ensures t == s[|s| - |t|..]
    decreases |s|
  {
    if |s| > 0 && IsSpace(s[0]) then TrimLeft(s[1..]) else s
  }

  function TrimRight(s: string): (t: string)
    ensures |t| <= |s| && (|t| > 0 ==> !IsSpace(t[|t| - 1]))
    ensures t == s[..|t|]
    decreases |s|
  {
    if |s| > 0 && IsSpace(s[|s| - 1]) then TrimRight(s[..|s| - 1]) else s
  }

  /** `s.strip()`: the text without leading and trailing whitespace. */
  function Strip(s: string): (t: string)
  {
    TrimRight(TrimLeft(s))
  }

  predicate AllSpace(s: string) { forall k :: 0 <= k < |s| ==> IsSpace(s[k]) }

  lemma {:induction false} TrimLeftPadding(w: string, s: string)
    requires AllSpace(w) && (|s| == 0 || !IsSpace(s[0]))
    ensures TrimLeft(w + s) == s
    decreases |w|
  {
    if |w| > 0 {
      assert (w + s)[0] == w[0];
      assert (w + s)[1..] == w[1..] + s;
      TrimLeftPadding(w[1..], s);
    } else {
      assert w + s == s;
    }
  }

  lemma {:induction false} TrimRightPadding(s: string, w: string)
    requires AllSpace(w) && (|s| == 0 || !IsSpace(s[|s| - 1]))
    ensures TrimRight(s + w) == s
    decreases |w|
  {
    if |w| > 0 {
      assert (s + w)[|s + w| - 1] == w[|w| - 1];
      assert (s + w)[..|s + w| - 1] == s + w[..|w| - 1];
      TrimRightPadding(s, w[..|w| - 1]);
    } else {
      assert s + w == s;
    }
  }

  /** `strip()` removes exactly the whitespace around text that neither
      starts nor ends with whitespace. */
  lemma StripPadding(w1: string, s: string, w2: string)
    requires AllSpace(w1) && AllSpace(w2)
    requires |s| > 0 && !IsSpace(s[0]) && !IsSpace(s[|s| - 1])
    ensures Strip(w1 + s + w2) == s
  {
    assert w1 + s + w2 == w1 + (s + w2);
    assert (s + w2)[0] == s[0];
    TrimLeftPadding(w1, s + w2);
    TrimRightPadding(s, w2);
  }

  /** `strip()` only removes characters. */
  lemma StripKeeps(s: string, c: char)
    requires c in Strip(s)
    ensures c in s
  {
    var l := TrimLeft(s);
    var t := TrimRight(l);
    var k :| 0 <= k < |t| && t[k] == c;
    assert t[k] == l[k];
    assert l[k] == s[|s| - |l| + k];
  }

  /** The characters `str()` uses for a number. */
  predicate NumericText(s: string)
  {
    forall k :: 0 <= k < |s| ==> IsDigit(s[k]) || s[k] == '-' || s[k] == '.'
  }

  lemma IntPrintsNumeric(i: int)
    ensures NumericText(IntToStr(i))
  {
    if i < 0 {
      NumericAppend("-", NatToStr(-i));
    }
  }

  lemma RealPrintsNumeric(r: real)
    ensures NumericText(RealToStr(r))
  {
    var a := if r < 0.0 then -r else r;
    var w := a.Floor;
    var frac := FracDigits(a - w as real, 12);
    var sign: string := if r < 0.0 then "-" else "";
    var tail: string := if frac == "" then "0" else frac;
    NumericAppend(sign, NatToStr(w));
    NumericAppend(sign + NatToStr(w), ".");
    NumericAppend(sign + NatToStr(w) + ".", tail);
  }

  lemma NumbersPrintNumeric(v: Value)
    requires v.Int? || v.Real?
    ensures NumericText(ToStr(v))
  {
    if v.Int? {
      IntPrintsNumeric(v.i);
    } else {
      RealPrintsNumeric(v.r);
    }
  }

  lemma NumericAppend(s: string, t: string)
    requires NumericText(s) && NumericText(t)
    ensures NumericText(s + t)
  {
    assert forall k :: |s| <= k < |s + t| ==> (s + t)[k] == t[k - |s|];
  }
}
