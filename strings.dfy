/** The JavaScript string operations the core relies on: `trim`, `startsWith`, `endsWith`,
    `split` on one character, removal of characters by a regular-expression class, and
    decimal rendering of integers in template strings. */
module Strings {

  /** The characters `String.prototype.trim` removes: ECMAScript WhiteSpace and LineTerminator. */
  predicate IsWhitespace(c: char) {
    || c == '\t' || c == '\n' || c == '\U{000B}' || c == '\U{000C}' || c == '\r' || c == ' '
    || c == '\U{00A0}' || c == '\U{1680}' || ('\U{2000}' <= c <= '\U{200A}')
    || c == '\U{2028}' || c == '\U{2029}' || c == '\U{202F}' || c == '\U{205F}'
    || c == '\U{3000}' || c == '\U{FEFF}'
  }

  predicate IsDigit(c: char) {
    '0' <= c <= '9'
  }

  predicate StartsWith<T(==)>(s: seq<T>, prefix: seq<T>) {
    |prefix| <= |s| && s[..|prefix|] == prefix
  }

  predicate EndsWith<T(==)>(s: seq<T>, suffix: seq<T>) {
    |suffix| <= |s| && s[|s| - |suffix|..] == suffix
  }

  /** Drops leading whitespace: the result is the longest suffix that does not start with it. */
  function TrimStart(s: string): (r: string)
    ensures |r| <= |s| && r == s[|s| - |r|..]
    ensures forall i :: 0 <= i < |s| - |r| ==> IsWhitespace(s[i])
    ensures |r| > 0 ==> !IsWhitespace(r[0])
    decreases |s|
  {
    if |s| > 0 && IsWhitespace(s[0]) then TrimStart(s[1..]) else s
  }

  /** Drops trailing whitespace: the result is the longest prefix that does not end with it. */
  function TrimEnd(s: string): (r: string)
    ensures |r| <= |s| && r == s[..|r|]
    ensures forall i :: |r| <= i < |s| ==> IsWhitespace(s[i])
    ensures |r| > 0 ==> !IsWhitespace(r[|r| - 1])
    decreases |s|
  {
    if |s| > 0 && IsWhitespace(s[|s| - 1]) then TrimEnd(s[..|s| - 1]) else s
  }

  /** `s.trim()`. */
  function Trim(s: string): (r: string)
    ensures |r| <= |s|
    ensures |r| > 0 ==> !IsWhitespace(r[0]) && !IsWhitespace(r[|r| - 1])
  {
    TrimEnd(TrimStart(s))
  }

  /** A string that holds no whitespace at its ends is its own trim. */
  lemma TrimOfTrimmed(s: string)
    requires |s| > 0 ==> !IsWhitespace(s[0]) && !IsWhitespace(s[|s| - 1])
    ensures Trim(s) == s
  {
  }

  /** Trimming twice is trimming once. */
  lemma TrimIdempotent(s: string)
    ensures Trim(Trim(s)) == Trim(s)
  {
    TrimOfTrimmed(Trim(s));
  }

  predicate AllWhitespace(s: string) {
    forall i :: 0 <= i < |s| ==> IsWhitespace(s[i])
  }

  /** Leading whitespace is dropped entirely. */
  lemma {:induction false} TrimStartPadded(pad: string, x: string)
    requires AllWhitespace(pad)
    ensures TrimStart(pad + x) == TrimStart(x)
    decreases |pad|
  {
    if pad == [] {
      assert pad + x == x;
    } else {
      assert (pad + x)[0] == pad[0] && IsWhitespace(pad[0]);
      assert (pad + x)[1..] == pad[1..] + x;
      assert AllWhitespace(pad[1..]) by {
        assert forall i :: 0 <= i < |pad| - 1 ==> pad[1..][i] == pad[i + 1];
      }
      TrimStartPadded(pad[1..], x);
      assert TrimStart(pad + x) == TrimStart((pad + x)[1..]);
    }
  }

  /** Trailing whitespace is dropped entirely. */
  lemma {:induction false} TrimEndPadded(x: string, pad: string)
    requires AllWhitespace(pad)
    ensures TrimEnd(x + pad) == TrimEnd(x)
    decreases |pad|
  {
    if pad == [] {
      assert x + pad == x;
    } else {
      var init := pad[..|pad| - 1];
      assert (x + pad)[|x + pad| - 1] == pad[|pad| - 1] && IsWhitespace(pad[|pad| - 1]);
      assert (x + pad)[..|x + pad| - 1] == x + init;
      assert AllWhitespace(init) by {
        assert forall i :: 0 <= i < |init| ==> init[i] == pad[i];
      }
      TrimEndPadded(x, init);
      assert TrimEnd(x + pad) == TrimEnd((x + pad)[..|x + pad| - 1]);
    }
  }

  /** Whitespace after `x` survives `TrimStart` unless `x` is itself all whitespace. */
  lemma {:induction false} TrimStartAppend(x: string, pad: string)
    requires AllWhitespace(pad)
    ensures TrimStart(x + pad) == if TrimStart(x) == [] then [] else TrimStart(x) + pad
    decreases |x|
  {
    if x == [] {
      assert x + pad == pad;
      assert TrimStart(pad) == [] by {
        TrimEndPadded([], pad);
        TrimStartPadded(pad, []);
        assert pad + [] == pad;
      }
    } else {
      assert (x + pad)[1..] == x[1..] + pad;
      if IsWhitespace(x[0]) {
        TrimStartAppend(x[1..], pad);
      }
    }
  }

  /** Surrounding whitespace does not change the trimmed text. */
  lemma TrimIgnoresPadding(pad: string, x: string, pad': string)
    requires AllWhitespace(pad) && AllWhitespace(pad')
    ensures Trim(pad + x + pad') == Trim(x)
  {
    var s := pad + x + pad';
    assert s == pad + (x + pad');
    TrimStartPadded(pad, x + pad');
    assert TrimStart(s) == TrimStart(x + pad');
    TrimStartAppend(x, pad');
    if TrimStart(x) == [] {
      assert TrimStart(s) == [];
    } else {
      assert TrimStart(s) == TrimStart(x) + pad';
      TrimEndPadded(TrimStart(x), pad');
    }
  }

  // ---- String length as JavaScript counts it ----

  /** `s.length`: the number of UTF-16 code units. A character above U+FFFF is a surrogate
      pair and counts twice. */
  function Utf16Length(s: string): (n: nat)
    ensures |s| <= n <= 2 * |s|
    ensures (forall i :: 0 <= i < |s| ==> s[i] as int <= 0xFFFF) ==> n == |s|
    decreases |s|
  {
    if s == [] then 0
    else (if s[0] as int > 0xFFFF then 2 else 1) + Utf16Length(s[1..])
  }

  /** One character is one code unit, or two when it lies above U+FFFF. */
  lemma Utf16LengthOfChar(c: char)
    ensures Utf16Length([c]) == if c as int > 0xFFFF then 2 else 1
  {
    assert [c][1..] == [];
  }

  /** The length of a concatenation is the sum of the lengths. */
  lemma {:induction false} Utf16LengthAppend(a: string, b: string)
    ensures Utf16Length(a + b) == Utf16Length(a) + Utf16Length(b)
    decreases |a|
  {
    if a == [] {
      assert a + b == b;
    } else {
      assert (a + b)[1..] == a[1..] + b;
      Utf16LengthAppend(a[1..], b);
    }
  }

  /** `s.replace(/[...]/g, '')`: keeps, in order, the characters `keep` accepts. */
  function Filter(s: string, keep: char -> bool): (r: string)
    ensures |r| <= |s|
    ensures forall i :: 0 <= i < |r| ==> keep(r[i])
    ensures forall c :: keep(c) ==> multiset(r)[c] == multiset(s)[c]
    decreases |s|
  {
    if s == [] then []
    else
      assert s == s[..|s| - 1] + [s[|s| - 1]];
      if keep(s[|s| - 1]) then Filter(s[..|s| - 1], keep) + [s[|s| - 1]]
      else Filter(s[..|s| - 1], keep)
  }

  /** Filtering distributes over concatenation. */
  lemma {:induction false} FilterAppend(a: string, b: string, keep: char -> bool)
    ensures Filter(a + b, keep) == Filter(a, keep) + Filter(b, keep)
    decreases |b|
  {
    if b == [] {
      assert a + b == a;
      assert Filter(a, keep) + [] == Filter(a, keep);
    } else {
      var bInit := b[..|b| - 1];
      assert (a + b)[..|a + b| - 1] == a + bInit;
      assert (a + b)[|a + b| - 1] == b[|b| - 1];
      FilterAppend(a, bInit, keep);
    }
  }

  /** Characters `keep` rejects all vanish. */
  lemma {:induction false} FilterRejected(s: string, keep: char -> bool)
    requires forall i :: 0 <= i < |s| ==> !keep(s[i])
    ensures Filter(s, keep) == []
    decreases |s|
  {
    if s != [] {
      FilterRejected(s[..|s| - 1], keep);
    }
  }

  /** `s.replace(/[^0-9]/g, '')`. */
  function DigitsOf(s: string): string {
    Filter(s, IsDigit)
  }

  /** `s.replace(/c/g, '')` for one character `c`. */
  function RemoveAll(s: string, c: char): string {
    Filter(s, x => x != c)
  }

  /** Every digit of `s` survives in `DigitsOf(s)`: its length counts them. */
  lemma DigitsOfAllDigits(s: string)
    requires forall i :: 0 <= i < |s| ==> IsDigit(s[i])
    ensures DigitsOf(s) == s
  {
    if s != [] {
      DigitsOfAllDigits(s[..|s| - 1]);
    }
  }

  /** The text before the first `sep`, or all of `s` when there is none. */
  function TakeUntil(s: string, sep: char): (r: string)
    ensures StartsWith(s, r) && sep !in r
    ensures |r| < |s| ==> s[|r|] == sep
    decreases |s|
  {
    if s == [] || s[0] == sep then [] else [s[0]] + TakeUntil(s[1..], sep)
  }

  /** `s.split(sep)` for a one-character separator. */
  function Split(s: string, sep: char): (parts: seq<string>)
    ensures |parts| >= 1
    ensures forall i :: 0 <= i < |parts| ==> sep !in parts[i]
    ensures parts[0] == TakeUntil(s, sep)
    decreases |s|
  {
    if s == [] then [""]
    else
      var rest := Split(s[1..], sep);
      if s[0] == sep then [""] + rest
      else [[s[0]] + rest[0]] + rest[1..]
  }

  /** `parts.join(sep)`. */
  function Join(parts: seq<string>, sep: char): string
    requires |parts| >= 1
    decreases |parts|
  {
    if |parts| == 1 then parts[0] else parts[0] + [sep] + Join(parts[1..], sep)
  }

  /** Splitting loses nothing: joining the parts restores the string. */
  lemma {:induction false} JoinSplit(s: string, sep: char)
    ensures Join(Split(s, sep), sep) == s
    decreases |s|
  {
    if s != [] {
      var rest := Split(s[1..], sep);
      JoinSplit(s[1..], sep);
      if s[0] == sep {
        assert Split(s, sep) == [""] + rest;
        assert ([""] + rest)[1..] == rest;
      } else {
        var parts := [[s[0]] + rest[0]] + rest[1..];
        assert Split(s, sep) == parts;
        if |rest| == 1 {
          assert Join(parts, sep) == [s[0]] + rest[0];
        } else {
          assert parts[1..] == rest[1..];
          assert Join(rest, sep) == rest[0] + [sep] + Join(rest[1..], sep);
        }
      }
    }
  }

  /** When `s` is `a`, a separator, then `t`, and `a` holds no separator, the parts of `s`
      are `a` followed by the parts of `t`. */
  lemma {:induction false} SplitAfterSeparator(a: string, t: string, sep: char)
    requires sep !in a
    ensures Split(a + [sep] + t, sep) == [a] + Split(t, sep)
    decreases |a|
  {
    if a == [] {
      assert a + [sep] + t == [sep] + t;
      assert ([sep] + t)[1..] == t;
    } else {
      var s := a + [sep] + t;
      assert s[1..] == a[1..] + [sep] + t;
      SplitAfterSeparator(a[1..], t, sep);
      assert [a[0]] + a[1..] == a;
    }
  }

  function DigitChar(d: nat): (c: char)
    requires d < 10
    ensures IsDigit(c)
  {
    ('0' as int + d) as char
  }

  /** Decimal rendering of a natural number, as in `${n}`: no sign, no leading zero. */
  function NatToDecimal(n: nat): (s: string)
    ensures |s| >= 1
    ensures forall i :: 0 <= i < |s| ==> IsDigit(s[i])
    ensures n >= 10 ==> s[0] != '0'
    decreases n
  {
    if n < 10 then [DigitChar(n)] else NatToDecimal(n / 10) + [DigitChar(n % 10)]
  }

  /** The number a string of decimal digits denotes. */
  function DecimalValue(s: string): nat
    requires forall i :: 0 <= i < |s| ==> IsDigit(s[i])
    decreases |s|
  {
    if s == [] then 0
    else
      assert IsDigit(s[|s| - 1]);
      DecimalValue(s[..|s| - 1]) * 10 + (s[|s| - 1] as int - '0' as int)
  }

  /** Reading back a rendered number gives the number. */
  lemma {:induction false} DecimalRoundTrip(n: nat)
    ensures DecimalValue(NatToDecimal(n)) == n
    decreases n
  {
    if n >= 10 {
      DecimalRoundTrip(n / 10);
      var s := NatToDecimal(n);
      assert s[..|s| - 1] == NatToDecimal(n / 10);
    }
  }

  /** Numbers from 1000 to 9999 render as exactly four digits. */
  lemma FourDigits(n: nat)
    requires 1000 <= n <= 9999
    ensures |NatToDecimal(n)| == 4
  {
    assert |NatToDecimal(n / 1000)| == 1;
    assert |NatToDecimal(n / 100)| == 2;
    assert |NatToDecimal(n / 10)| == 3;
  }
}
