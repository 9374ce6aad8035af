/** The JavaScript primitives the marketplace screen relies on: `undefined`,
    numbers that may be NaN, String.prototype.trim, String.prototype.includes,
    parseFloat and String(number). Numbers are integers in this model. */
module Js {

  /** A value that may be `undefined` (as returned by Array.prototype.find). */
  datatype Option<T> = None | Some(value: T)

  /** A JavaScript number: an integer, or NaN (what parseFloat yields for
      text that does not start with a number). */
  datatype Num = Finite(value: int) | NaN

  /** `n || 0`: NaN and 0 are falsy, so both become 0. */
  function OrZero(n: Num): int
  {
    match n
    case Finite(v) => v
    case NaN => 0
  }

  /** JavaScript `a < b`: false as soon as one side is NaN. */
  predicate Less(a: Num, b: Num)
  {
    a.Finite? && b.Finite? && a.value < b.value
  }

  /** ECMAScript WhiteSpace and LineTerminator code points: what trim removes
      and what parseFloat skips before the number. */
  predicate IsSpace(c: char)
  {
    c == '\t' || c == '\n' || c == '\U{B}' || c == '\U{C}' || c == '\r' || c == ' '
    || c == '\U{A0}' || c == '\U{1680}' || ('\U{2000}' <= c <= '\U{200A}')
    || c == '\U{2028}' || c == '\U{2029}' || c == '\U{202F}' || c == '\U{205F}'
    || c == '\U{3000}' || c == '\U{FEFF}'
  }

  predicate IsDigit(c: char)
  {
    '0' <= c <= '9'
  }

  predicate AllDigits(s: string)
  {
    forall i :: 0 <= i < |s| ==> IsDigit(s[i])
  }

  // ---------------------------------------------------------------------------
  // trim

  /** The number of white-space characters `s` starts with. */
  function LeadingSpaces(s: string): (n: nat)
    ensures n <= |s|
    ensures forall i :: 0 <= i < n ==> IsSpace(s[i])
    ensures n == |s| || !IsSpace(s[n])
  {
    if s != [] && IsSpace(s[0]) then 1 + LeadingSpaces(s[1..]) else 0
  }

  /** The number of white-space characters `s` ends with. */
  function TrailingSpaces(s: string): (n: nat)
    ensures n <= |s|
    ensures forall i :: |s| - n <= i < |s| ==> IsSpace(s[i])
    ensures n == |s| || !IsSpace(s[|s| - n - 1])
  {
    if s != [] && IsSpace(s[|s| - 1]) then 1 + TrailingSpaces(s[..|s| - 1]) else 0
  }

  /** No white space at either end. */
  predicate IsTrimmed(s: string)
  {
    s == [] || (!IsSpace(s[0]) && !IsSpace(s[|s| - 1]))
  }

  /** `r` is the slice of `s` at `k`, and everything around it is white space. */
  ghost predicate SliceBetweenSpaces(s: string, r: string, k: int)
  {
    0 <= k <= |s| - |r| && r == s[k..k + |r|]
    && (forall i :: 0 <= i < k ==> IsSpace(s[i]))
    && (forall i :: k + |r| <= i < |s| ==> IsSpace(s[i]))
  }

  /** String.prototype.trim: the result is the slice of `s` that is left once
      the white space at both ends is cut off; it is empty exactly when `s` is
      all white space. */
  function Trim(s: string): (r: string)
    ensures IsTrimmed(r)
    ensures exists k :: SliceBetweenSpaces(s, r, k)
    ensures r == [] <==> forall i :: 0 <= i < |s| ==> IsSpace(s[i])
  {
    var a := LeadingSpaces(s);
    var b := TrailingSpaces(s[a..]);
    assert forall i :: |s| - b <= i < |s| ==> IsSpace(s[i]) by {
      forall i | |s| - b <= i < |s| ensures IsSpace(s[i]) {
        assert s[i] == s[a..][i - a];
      }
    }
    assert b < |s| - a ==> !IsSpace(s[|s| - b - 1]) by {
      if b < |s| - a {
        assert s[|s| - b - 1] == s[a..][|s| - a - b - 1];
      }
    }
    assert SliceBetweenSpaces(s, s[a..|s| - b], a);
    s[a..|s| - b]
  }

  lemma TrimOfTrimmed(s: string)
    requires IsTrimmed(s)
    ensures Trim(s) == s
  {
  }

  // ---------------------------------------------------------------------------
  // includes

  /** `q` occurs in `s` at position `i`. */
  ghost predicate OccursAt(s: string, q: string, i: int)
  {
    0 <= i && i + |q| <= |s| && s[i..i + |q|] == q
  }

  /** String.prototype.includes: a case-sensitive search for `q` anywhere in `s`. */
  function Includes(s: string, q: string): (b: bool)
    ensures b <==> exists i :: OccursAt(s, q, i)
  {
    if |q| > |s| then
      assert forall i :: !OccursAt(s, q, i);
      false
    else if s[..|q|] == q then
      assert OccursAt(s, q, 0);
      true
    else
      var b := Includes(s[1..], q);
      assert forall i :: OccursAt(s[1..], q, i) <==> OccursAt(s, q, i + 1) by {
        forall i ensures OccursAt(s[1..], q, i) <==> OccursAt(s, q, i + 1) {
          if 0 <= i && i + |q| <= |s| - 1 {
            assert s[1..][i..i + |q|] == s[i + 1..i + 1 + |q|];
          }
        }
      }
      assert b ==> exists i :: OccursAt(s, q, i) by {
        if b {
          var i :| OccursAt(s[1..], q, i);
          assert OccursAt(s, q, i + 1);
        }
      }
      assert (exists i :: OccursAt(s, q, i)) ==> b by {
        if exists i :: OccursAt(s, q, i) {
          var i :| OccursAt(s, q, i);
          assert i != 0;
          assert OccursAt(s[1..], q, i - 1);
        }
      }
      b
  }

  // ---------------------------------------------------------------------------
  // parseFloat and String(number), on integers

  /** The longest prefix of `s` made of decimal digits. */
  function DigitPrefix(s: string): (r: string)
    ensures |r| <= |s| && r == s[..|r|] && AllDigits(r)
    ensures |r| < |s| ==> !IsDigit(s[|r|])
  {
    if s != [] && IsDigit(s[0]) then [s[0]] + DigitPrefix(s[1..]) else []
  }

  /** The value of a string of decimal digits. */
  function DigitsValue(ds: string): nat
    requires AllDigits(ds)
  {
    if ds == [] then 0
    else DigitsValue(ds[..|ds| - 1]) * 10 + (ds[|ds| - 1] as int - '0' as int)
  }

  /** parseFloat on an integer: leading white space is skipped, an optional
      sign is read, then the longest run of decimal digits; with no digit there
      the result is NaN. Text after the digits is ignored. */
  function ParseFloat(s: string): (r: Num)
    ensures (forall i :: 0 <= i < |s| ==> !IsDigit(s[i])) ==> r == NaN
  {
    var t := s[LeadingSpaces(s)..];
    var signed := t != [] && (t[0] == '-' || t[0] == '+');
    var body := if signed then t[1..] else t;
    var ds := DigitPrefix(body);
    if ds == [] then NaN
    else
      assert IsDigit(s[|s| - |body|]);
      var n: int := DigitsValue(ds);
      Finite(if signed && t[0] == '-' then -n else n)
  }

  function DigitChar(d: nat): (c: char)
    requires d < 10
    ensures IsDigit(c) && c as int - '0' as int == d
  {
    ('0' as int + d) as char
  }

  /** The decimal digits of `n`, most significant first, no leading zero. */
  function ShowNat(n: nat): (s: string)
    ensures s != [] && AllDigits(s)
  {
    if n < 10 then [DigitChar(n)] else ShowNat(n / 10) + [DigitChar(n % 10)]
  }

  /** String(n) for an integer `n`. */
  function ShowInt(n: int): (s: string)
    ensures s != [] && !IsSpace(s[0])
  {
    if n < 0 then "-" + ShowNat(-n) else ShowNat(n)
  }

  lemma {:induction false} DigitPrefixOfDigits(s: string)
    requires AllDigits(s)
    ensures DigitPrefix(s) == s
  {
    if s != [] {
      DigitPrefixOfDigits(s[1..]);
    }
  }

  lemma {:induction false} DigitsValueOfShowNat(n: nat)
    ensures DigitsValue(ShowNat(n)) == n
  {
    if n >= 10 {
      DigitsValueOfShowNat(n / 10);
      var s := ShowNat(n / 10) + [DigitChar(n % 10)];
      assert s[..|s| - 1] == ShowNat(n / 10);
    }
  }

  /** Reading back what String(n) wrote gives `n` again. */
  lemma ParseShowInt(n: int)
    ensures ParseFloat(ShowInt(n)) == Finite(n)
  {
    var s := ShowInt(n);
    assert LeadingSpaces(s) == 0;
    var m: nat := if n < 0 then -n else n;
    DigitPrefixOfDigits(ShowNat(m));
    DigitsValueOfShowNat(m);
    if n < 0 {
      assert s[1..] == ShowNat(m);
    } else {
      assert !(s[0] == '-' || s[0] == '+');
    }
  }

  /** The white space `w` counts as leading space of `w + u` and no more, when
      `u` does not start with white space. */
  lemma {:induction false} LeadingSpacesOfPrefix(w: string, u: string)
    requires forall i :: 0 <= i < |w| ==> IsSpace(w[i])
    requires u == [] || !IsSpace(u[0])
    ensures LeadingSpaces(w + u) == |w|
  {
    if w == [] {
      assert w + u == u;
    } else {
      assert (w + u)[0] == w[0] && (w + u)[1..] == w[1..] + u;
      LeadingSpacesOfPrefix(w[1..], u);
    }
  }

  /** The digit run of `d + t` is `d` when `t` does not start with a digit. */
  lemma {:induction false} DigitPrefixOfDigitsThen(d: string, t: string)
    requires AllDigits(d)
    requires t == [] || !IsDigit(t[0])
    ensures DigitPrefix(d + t) == d
  {
    if d == [] {
      assert d + t == t;
    } else {
      assert (d + t)[0] == d[0] && (d + t)[1..] == d[1..] + t;
      DigitPrefixOfDigitsThen(d[1..], t);
    }
  }

  lemma SkipSpacesBeforeText(w: string, u: string)
    requires forall i :: 0 <= i < |w| ==> IsSpace(w[i])
    requires u == [] || !IsSpace(u[0])
    ensures ParseFloat(w + u) == ParseFloat(u)
  {
    LeadingSpacesOfPrefix(w, u);
    assert (w + u)[|w|..] == u;
    assert LeadingSpaces(u) == 0;
  }

  /** Leading white space does not change what parseFloat reads. */
  lemma ParseFloatSkipsSpaces(w: string, u: string)
    requires forall i :: 0 <= i < |w| ==> IsSpace(w[i])
    ensures ParseFloat(w + u) == ParseFloat(u)
  {
    var k := LeadingSpaces(u);
    var v := u[k..];
    assert u == u[..k] + v;
    assert w + u == (w + u[..k]) + v;
    SkipSpacesBeforeText(w + u[..k], v);
    SkipSpacesBeforeText(u[..k], v);
  }

  /** A run of digits followed by something that is not a digit reads as
      the value of the run. */
  lemma ParseDigitsThen(d: string, t: string)
    requires d != [] && AllDigits(d)
    requires t == [] || !IsDigit(t[0])
    ensures ParseFloat(d + t) == Finite(DigitsValue(d))
  {
    var u := d + t;
    assert u[0] == d[0];
    assert LeadingSpaces(u) == 0;
    assert u[0..] == u;
    DigitPrefixOfDigitsThen(d, t);
  }

  /** The same after a minus sign, which negates the value. */
  lemma ParseNegativeDigitsThen(d: string, t: string)
    requires d != [] && AllDigits(d)
    requires t == [] || !IsDigit(t[0])
    ensures ParseFloat("-" + d + t) == Finite(0 - DigitsValue(d) as int)
  {
    var u := "-" + d + t;
    assert LeadingSpaces(u) == 0;
    assert u[0..] == u;
    assert u[1..] == d + t;
    DigitPrefixOfDigitsThen(d, t);
  }

  /** Text that cannot continue a decimal number: it does not start with a
      digit, a decimal point or an exponent mark. */
  predicate EndsNumber(t: string)
  {
    t == [] || !(IsDigit(t[0]) || t[0] == '.' || t[0] == 'e' || t[0] == 'E')
  }

  /** Text after the digits String(n) writes is ignored. */
  lemma ParseShowIntThen(n: int, t: string)
    requires EndsNumber(t)
    ensures ParseFloat(ShowInt(n) + t) == Finite(n)
  {
    var m: nat := if n < 0 then -n else n;
    DigitsValueOfShowNat(m);
    if n < 0 {
      ParseNegativeDigitsThen(ShowNat(m), t);
    } else {
      ParseDigitsThen(ShowNat(m), t);
    }
  }

  /** parseFloat skips leading white space and ignores whatever follows the
      digits: a cell such as `" 10"` or `"10 USD"` reads as 10. */
  lemma ParseFloatPrefix(w: string, n: int, t: string)
    requires forall i :: 0 <= i < |w| ==> IsSpace(w[i])
    requires EndsNumber(t)
    ensures ParseFloat(w + ShowInt(n) + t) == Finite(n)
  {
    var u := ShowInt(n) + t;
    assert w + ShowInt(n) + t == w + u;
    ParseFloatSkipsSpaces(w, u);
    ParseShowIntThen(n, t);
  }
}
