/** The optional-value wrapper used for fallible lookups (ReadDir, Stat, GetSize). */
module Wrappers {
  datatype Option<+T> = None | Some(value: T)
}

/**
 * The parts of Go's `strings`, `fmt` and `path/filepath` packages that the
 * listing relies on. A Go string is a sequence of bytes; it is modelled as a
 * Dafny `string` whose every character stands for one byte, so `|s|` is Go's
 * `len(s)` and `s[..k]` is Go's byte slice `s[:k]`.
 */
module GoStrings {

  type Bytes = string

  /** strings.HasPrefix */
  predicate HasPrefix(s: Bytes, prefix: Bytes) {
    |prefix| <= |s| && s[..|prefix|] == prefix
  }

  /** One byte of strings.ToLower, restricted to ASCII letters. */
  function LowerByte(c: char): char {
    if 'A' <= c <= 'Z' then (c as int + 32) as char else c
  }

  /** strings.ToLower on ASCII text; other bytes are kept as they are. */
  function ToLower(s: Bytes): (r: Bytes)
    ensures |r| == |s|
    ensures forall i :: 0 <= i < |s| ==> 'A' <= s[i] <= 'Z' ==> r[i] == s[i] + ('a' - 'A')
    ensures forall i :: 0 <= i < |s| ==> !('A' <= s[i] <= 'Z') ==> r[i] == s[i]
  {
    seq(|s|, i requires 0 <= i < |s| => LowerByte(s[i]))
  }

  /** Go's `<` on strings: lexicographic order on the bytes. */
  predicate Less(a: Bytes, b: Bytes)
    decreases |a|
  {
    if a == [] then b != []
    else if b == [] then false
    else if a[0] != b[0] then a[0] < b[0]
    else Less(a[1..], b[1..])
  }

  /** Go's `<=` on strings. */
  predicate LessEq(a: Bytes, b: Bytes) {
    Less(a, b) || a == b
  }

  lemma {:induction false} LessIrreflexive(a: Bytes)
    ensures !Less(a, a)
  {
    if a != [] {
      LessIrreflexive(a[1..]);
    }
  }

  lemma {:induction false} LessAsymmetric(a: Bytes, b: Bytes)
    ensures Less(a, b) ==> !Less(b, a)
  {
    if a != [] && b != [] && a[0] == b[0] {
      LessAsymmetric(a[1..], b[1..]);
    }
  }

  lemma {:induction false} LessTrichotomy(a: Bytes, b: Bytes)
    ensures Less(a, b) || a == b || Less(b, a)
  {
    if a != [] && b != [] && a[0] == b[0] {
      LessTrichotomy(a[1..], b[1..]);
      if a[1..] == b[1..] {
        assert a == [a[0]] + a[1..] && b == [b[0]] + b[1..];
      }
    }
  }

  lemma {:induction false} LessTransitive(a: Bytes, b: Bytes, c: Bytes)
    requires Less(a, b) && Less(b, c)
    ensures Less(a, c)
  {
    if a != [] && b != [] && c != [] && a[0] == b[0] && b[0] == c[0] {
      LessTransitive(a[1..], b[1..], c[1..]);
    }
  }

  /** strings.Join */
  function Join(parts: seq<Bytes>, sep: Bytes): Bytes {
    if parts == [] then []
    else if |parts| == 1 then parts[0]
    else parts[0] + sep + Join(parts[1..], sep)
  }

  predicate IsDigit(c: char) {
    '0' <= c <= '9'
  }

  predicate AllDigits(s: Bytes) {
    forall i :: 0 <= i < |s| ==> IsDigit(s[i])
  }

  function Digit(d: nat): (c: char)
    requires d < 10
    ensures IsDigit(c) && c as int - '0' as int == d
  {
    ('0' as int + d) as char
  }

  /** fmt.Sprintf("%d", n) for a non-negative n. */
  function Decimal(n: nat): (r: Bytes)
    ensures 1 <= |r|
    ensures AllDigits(r)
    ensures r[0] == '0' ==> n == 0
    ensures n < 10 ==> |r| == 1
    decreases n
  {
    if n < 10 then [Digit(n)] else Decimal(n / 10) + [Digit(n % 10)]
  }

  /** Reads a run of decimal digits back as a number: the inverse of Decimal. */
  function ParseDecimal(s: Bytes): nat
    requires AllDigits(s)
    decreases |s|
  {
    if s == [] then 0 else ParseDecimal(s[..|s| - 1]) * 10 + (s[|s| - 1] as int - '0' as int)
  }

  lemma {:induction false} DecimalRoundTrip(n: nat)
    ensures ParseDecimal(Decimal(n)) == n
    decreases n
  {
    if n >= 10 {
      var d := Decimal(n);
      assert d[..|d| - 1] == Decimal(n / 10);
      DecimalRoundTrip(n / 10);
    }
  }

  lemma DecimalInjective(m: nat, n: nat)
    requires Decimal(m) == Decimal(n)
    ensures m == n
  {
    DecimalRoundTrip(m);
    DecimalRoundTrip(n);
  }

  /**
   * filepath.Ext followed by strings.TrimPrefix(_, "."): the bytes after the
   * last '.' of a name, or "" when the name has no '.'. (Ext also stops at a
   * path separator, which a directory entry's name never contains.)
   */
  function Extension(name: Bytes): (r: Bytes)
    ensures '.' !in r
    ensures '.' !in name ==> r == []
    ensures '.' in name ==> |r| < |name| && name == name[..|name| - |r| - 1] + ['.'] + r
    decreases |name|
  {
    if name == [] then []
    else if name[|name| - 1] == '.' then []
    else if '.' in name[..|name| - 1] then
      var r := Extension(name[..|name| - 1]) + [name[|name| - 1]];
      assert name == name[..|name| - 1] + [name[|name| - 1]];
      r
    else
      assert name == name[..|name| - 1] + [name[|name| - 1]];
      []
  }
}
