/** The JavaScript string operations the validators and views rely on:
    `.length` (UTF-16 code units), `.trim()`, `.toLowerCase()` and the
    decimal rendering of an integer in a template literal. */
module Text {
  import opened Common

  /** JavaScript's WhiteSpace and LineTerminator characters: exactly the
      characters `String.prototype.trim` removes. */
  predicate IsWhitespace(c: char)
  {
    || c == '\t' || c == '\n' || c == '\U{000B}' || c == '\U{000C}' || c == '\r'
    || c == ' ' || c == '\U{00A0}' || c == '\U{1680}'
    || ('\U{2000}' <= c <= '\U{200A}')
    || c == '\U{2028}' || c == '\U{2029}' || c == '\U{202F}' || c == '\U{205F}'
    || c == '\U{3000}' || c == '\U{FEFF}'
  }

  /** Code units a character occupies in UTF-16: two for characters outside
      the Basic Multilingual Plane (a surrogate pair), one otherwise. */
  function Utf16Units(c: char): nat
  {
    if c as int > 0xFFFF then 2 else 1
  }

  /** JavaScript's `s.length`, which every length bound of the schemas uses. */
  function Utf16Length(s: string): (n: nat)
    ensures |s| <= n <= 2 * |s|
    ensures n == 0 <==> s == []
  {
    if s == [] then 0 else Utf16Units(s[0]) + Utf16Length(s[1..])
  }

  lemma {:induction false} Utf16LengthAppend(a: string, b: string)
    ensures Utf16Length(a + b) == Utf16Length(a) + Utf16Length(b)
  {
    if a == [] {
      assert a + b == b;
    } else {
      assert (a + b)[0] == a[0];
      assert (a + b)[1..] == a[1..] + b;
      Utf16LengthAppend(a[1..], b);
    }
  }

  /** A contiguous piece of a string is never longer than the string. */
  lemma {:induction false} Utf16LengthSlice(s: string, i: nat, j: nat)
    requires i <= j <= |s|
    ensures Utf16Length(s[i..j]) <= Utf16Length(s)
  {
    var front, middle, back := s[..i], s[i..j], s[j..];
    assert s == front + middle + back;
    Utf16LengthAppend(front + middle, back);
    Utf16LengthAppend(front, middle);
  }

  /** No whitespace at either end: what `.trim()` returns. */
  predicate IsTrimmed(s: string)
  {
    s != [] ==> !IsWhitespace(s[0]) && !IsWhitespace(s[|s| - 1])
  }

  /** `String.prototype.trim`: drops the leading whitespace, then the
      trailing whitespace. */
  function Trim(s: string): (r: string)
    ensures |r| <= |s|
    ensures IsTrimmed(r)
    ensures Utf16Length(r) <= Utf16Length(s)
  {
    if s != [] && IsWhitespace(s[0]) then Trim(s[1..])
    else if s != [] && IsWhitespace(s[|s| - 1]) then
      Utf16LengthSlice(s, 0, |s| - 1);
      Trim(s[..|s| - 1])
    else s
  }

  /** How many whitespace characters `Trim` drops at the front. */
  function TrimOffset(s: string): (i: nat)
    ensures i <= |s|
  {
    if s != [] && IsWhitespace(s[0]) then 1 + TrimOffset(s[1..]) else 0
  }

  /** The trimmed string is the part of the original that starts at
      `TrimOffset(s)`. */
  lemma {:induction false} TrimIsInfix(s: string)
    ensures TrimOffset(s) + |Trim(s)| <= |s|
    ensures forall k | 0 <= k < |Trim(s)| :: Trim(s)[k] == s[TrimOffset(s) + k]
  {
    if s != [] && IsWhitespace(s[0]) {
      var rest := s[1..];
      TrimIsInfix(rest);
      var t, i := Trim(s), TrimOffset(rest);
      assert t == Trim(rest) && TrimOffset(s) == 1 + i;
      forall k | 0 <= k < |t|
        ensures t[k] == s[1 + i + k]
      {
        assert t[k] == rest[i + k];
      }
    } else if s != [] && IsWhitespace(s[|s| - 1]) {
      var front := s[..|s| - 1];
      TrimIsInfix(front);
      assert front[0] == s[0];
      var t := Trim(s);
      assert t == Trim(front) && TrimOffset(front) == 0 && TrimOffset(s) == 0;
      forall k | 0 <= k < |t|
        ensures t[k] == s[k]
      {
        assert t[k] == front[k];
      }
    }
  }

  /** What `Trim` drops on either side is whitespace. */
  lemma {:induction false} TrimDropsWhitespace(s: string)
    ensures TrimOffset(s) + |Trim(s)| <= |s|
    ensures forall k | 0 <= k < TrimOffset(s) :: IsWhitespace(s[k])
    ensures forall k | TrimOffset(s) + |Trim(s)| <= k < |s| :: IsWhitespace(s[k])
  {
    TrimIsInfix(s);
    if s != [] && IsWhitespace(s[0]) {
      var rest := s[1..];
      TrimDropsWhitespace(rest);
      forall k | 0 <= k < |s| && (k < TrimOffset(s) || TrimOffset(s) + |Trim(s)| <= k)
        ensures IsWhitespace(s[k])
      {
        if k > 0 {
          assert s[k] == rest[k - 1];
        }
      }
    } else if s != [] && IsWhitespace(s[|s| - 1]) {
      var front := s[..|s| - 1];
      TrimDropsWhitespace(front);
      assert front[0] == s[0];
      forall k | |Trim(s)| <= k < |s| - 1
        ensures IsWhitespace(s[k])
      {
        assert s[k] == front[k];
      }
    }
  }

  /** A string with no whitespace at either end is its own trim. */
  lemma TrimOfTrimmed(s: string)
    requires IsTrimmed(s)
    ensures Trim(s) == s
  {
  }

  /** Trimming an already trimmed string keeps its length. */
  lemma TrimmedKeepsLength(s: string)
    requires IsTrimmed(s)
    ensures Utf16Length(Trim(s)) == Utf16Length(s)
  {
    TrimOfTrimmed(s);
  }

  /** Trimming twice is trimming once. */
  lemma TrimIdempotent(s: string)
    ensures Trim(Trim(s)) == Trim(s)
  {
    TrimOfTrimmed(Trim(s));
  }

  /** Trimming leaves nothing exactly when the string is all whitespace. */
  lemma TrimEmptyIffBlank(s: string)
    ensures Trim(s) == [] <==> forall k | 0 <= k < |s| :: IsWhitespace(s[k])
  {
    TrimIsInfix(s);
    TrimDropsWhitespace(s);
    var r := Trim(s);
    if r != [] {
      assert s[TrimOffset(s)] == r[0];
    }
  }

  function LowerChar(c: char): char
  {
    if 'A' <= c <= 'Z' then (c as int + 32) as char else c
  }

  /** `String.prototype.toLowerCase`, folding the ASCII letters. */
  function ToLower(s: string): (r: string)
    ensures |r| == |s|
  {
    seq(|s|, i requires 0 <= i < |s| => LowerChar(s[i]))
  }

  /** Lower-casing neither creates nor removes whitespace. */
  lemma LowerKeepsWhitespace(c: char)
    ensures IsWhitespace(LowerChar(c)) == IsWhitespace(c)
  {
  }

  /** Trimming and lower-casing commute, so `.toLowerCase().trim()` equals
      `.trim().toLowerCase()`. */
  lemma {:induction false} TrimCommutesWithLower(s: string)
    ensures Trim(ToLower(s)) == ToLower(Trim(s))
    decreases |s|
  {
    var l := ToLower(s);
    if s != [] {
      LowerKeepsWhitespace(s[0]);
      LowerKeepsWhitespace(s[|s| - 1]);
      assert l[0] == LowerChar(s[0]) && l[|l| - 1] == LowerChar(s[|s| - 1]);
    }
    if s != [] && IsWhitespace(s[0]) {
      assert l[1..] == ToLower(s[1..]);
      TrimCommutesWithLower(s[1..]);
    } else if s != [] && IsWhitespace(s[|s| - 1]) {
      assert l[..|l| - 1] == ToLower(s[..|s| - 1]);
      TrimCommutesWithLower(s[..|s| - 1]);
    }
  }

  function SwapCase(c: char): char
  {
    if 'A' <= c <= 'Z' then (c as int + 32) as char
    else if 'a' <= c <= 'z' then (c as int - 32) as char
    else c
  }

  /** Two strings that differ at most in the case of their letters. */
  predicate SameIgnoringCase(a: string, b: string)
  {
    |a| == |b| && forall i | 0 <= i < |a| :: a[i] == b[i] || a[i] == SwapCase(b[i])
  }

  lemma LowerCharAgreement(x: char, y: char)
    ensures LowerChar(x) == LowerChar(y) <==> x == y || x == SwapCase(y)
  {
    if 'A' <= x <= 'Z' {
      assert LowerChar(x) as int == x as int + 32;
    }
    if 'A' <= y <= 'Z' {
      assert LowerChar(y) as int == y as int + 32;
    }
  }

  /** Lower-casing identifies two strings exactly when they differ only in
      letter case. */
  lemma ToLowerIdentifies(a: string, b: string)
    ensures ToLower(a) == ToLower(b) <==> SameIgnoringCase(a, b)
  {
    if ToLower(a) == ToLower(b) {
      forall i | 0 <= i < |a|
        ensures a[i] == b[i] || a[i] == SwapCase(b[i])
      {
        assert ToLower(a)[i] == ToLower(b)[i];
        LowerCharAgreement(a[i], b[i]);
      }
    }
    if SameIgnoringCase(a, b) {
      forall i | 0 <= i < |a|
        ensures ToLower(a)[i] == ToLower(b)[i]
      {
        LowerCharAgreement(a[i], b[i]);
      }
    }
  }

  /** The position of the first `c` in `s`, or `|s|` when there is none. */
  function IndexOf(s: string, c: char): (i: nat)
    ensures i <= |s|
    ensures i < |s| ==> s[i] == c
    ensures forall k | 0 <= k < i :: s[k] != c
  {
    if s == [] then 0 else if s[0] == c then 0 else 1 + IndexOf(s[1..], c)
  }

  predicate IsDigit(c: char)
  {
    '0' <= c <= '9'
  }

  predicate AllDigits(s: string)
  {
    forall i | 0 <= i < |s| :: IsDigit(s[i])
  }

  function DigitChar(d: nat): (c: char)
    requires d < 10
    ensures IsDigit(c)
  {
    ('0' as int + d) as char
  }

  /** The decimal numeral of `n`, without leading zeros. */
  function NatToDecimal(n: nat): (s: string)
    ensures |s| >= 1 && AllDigits(s)
    ensures s[0] == '0' ==> n == 0
    decreases n
  {
    if n < 10 then [DigitChar(n)] else NatToDecimal(n / 10) + [DigitChar(n % 10)]
  }

  /** The number a string of decimal digits denotes. */
  function DecimalValue(s: string): nat
    requires AllDigits(s)
  {
    if s == [] then 0 else DecimalValue(s[..|s| - 1]) * 10 + (s[|s| - 1] as int - '0' as int)
  }

  lemma {:induction false} NatDecimalRoundTrip(n: nat)
    ensures DecimalValue(NatToDecimal(n)) == n
    decreases n
  {
    if n >= 10 {
      var s := NatToDecimal(n);
      assert s[..|s| - 1] == NatToDecimal(n / 10);
      NatDecimalRoundTrip(n / 10);
    }
  }

  /** How a template literal renders an integer. */
  function IntToDecimal(i: int): (s: string)
    ensures s != []
  {
    if i < 0 then "-" + NatToDecimal(-i) else NatToDecimal(i)
  }

  /** Reads back an optionally negative decimal numeral. */
  function ParseInt(s: string): Option<int>
  {
    if |s| > 1 && s[0] == '-' && AllDigits(s[1..]) then Some(-(DecimalValue(s[1..]) as int))
    else if s != [] && AllDigits(s) then Some(DecimalValue(s))
    else None
  }

  lemma IntDecimalRoundTrip(i: int)
    ensures ParseInt(IntToDecimal(i)) == Some(i)
  {
    if i < 0 {
      var d := NatToDecimal(-i);
      assert IntToDecimal(i)[1..] == d;
      NatDecimalRoundTrip(-i);
    } else {
      NatDecimalRoundTrip(i);
    }
  }
}
