/**
 * Text primitives the index-file format is built from: Rust's `Display` and
 * `FromStr` for unsigned integers (`u64`, `u128`) and `str::split` on a
 * single character.
 */
module Text {
  import opened Wrappers

  const U64_LIMIT: nat := 0x1_0000_0000_0000_0000
  const U128_LIMIT: nat := 0x1_0000_0000_0000_0000_0000_0000_0000_0000

  type u64 = x: int | 0 <= x < U64_LIMIT
  type u128 = x: int | 0 <= x < U128_LIMIT

  predicate IsDigit(c: char) { '0' <= c <= '9' }

  predicate AllDigits(s: string) { forall i :: 0 <= i < |s| ==> IsDigit(s[i]) }

  function DigitChar(d: nat): (c: char)
    requires d < 10
    ensures IsDigit(c)
  {
    ('0' as int + d) as char
  }

  /** The value of a string of decimal digits, most significant first. */
  function DigitsValue(s: string): nat
    requires AllDigits(s)
  {
    if s == [] then 0 else DigitsValue(s[..|s| - 1]) * 10 + (s[|s| - 1] as int - '0' as int)
  }

  /** `{}` formatting of an unsigned integer: the shortest decimal form, no sign. */
  function Format(n: nat): (s: string)
    ensures |s| > 0 && AllDigits(s)
    ensures s[0] == '0' ==> n == 0
  {
    if n < 10 then [DigitChar(n)] else Format(n / 10) + [DigitChar(n % 10)]
  }

  /**
   * `str::parse::<uN>()` where `limit` is 2^N: an optional leading '+', then at
   * least one decimal digit (leading zeros allowed); the value must be below `limit`.
   */
  function ParseUnsigned(s: string, limit: nat): (r: Option<nat>)
  {
    var digits := if |s| > 0 && s[0] == '+' then s[1..] else s;
    if digits == [] || !AllDigits(digits) then None
    else if DigitsValue(digits) < limit then Some(DigitsValue(digits))
    else None
  }

  lemma {:induction false} DigitsValueOfFormat(n: nat)
    ensures DigitsValue(Format(n)) == n
  {
    if n >= 10 {
      var s := Format(n);
      assert s[..|s| - 1] == Format(n / 10);
      DigitsValueOfFormat(n / 10);
    }
  }

  /** Parsing what `Format` printed gives the number back, for any width it fits in. */
  lemma ParseFormat(n: nat, limit: nat)
    requires n < limit
    ensures ParseUnsigned(Format(n), limit) == Some(n)
  {
    DigitsValueOfFormat(n);
  }

  /** A parsed value is always in range, and no string without a digit parses. */
  lemma ParseInRange(s: string, limit: nat)
    ensures ParseUnsigned(s, limit).Some? ==> ParseUnsigned(s, limit).value < limit
    ensures (forall i :: 0 <= i < |s| ==> !IsDigit(s[i])) ==> ParseUnsigned(s, limit).None?
  {
    if |s| > 0 && (forall i :: 0 <= i < |s| ==> !IsDigit(s[i])) {
      var digits := if s[0] == '+' then s[1..] else s;
      if digits != [] {
        assert !IsDigit(s[|s| - 1]) && digits[|digits| - 1] == s[|s| - 1];
      }
    }
  }

  /** Number of occurrences of `c` in `s`. */
  function Count(s: string, c: char): nat
  {
    if s == [] then 0 else (if s[0] == c then 1 else 0) + Count(s[1..], c)
  }

  /** `s.split(sep).collect::<Vec<&str>>()`: the maximal runs between separators, empty runs included. */
  function Split(s: string, sep: char): (parts: seq<string>)
    ensures |parts| >= 1
    ensures forall i :: 0 <= i < |parts| ==> sep !in parts[i]
  {
    if s == [] then [[]]
    else
      var rest := Split(s[1..], sep);
      if s[0] == sep then [[]] + rest else [[s[0]] + rest[0]] + rest[1..]
  }

  /** Splitting yields one more part than there are separators. */
  lemma {:induction false} SplitCount(s: string, sep: char)
    ensures |Split(s, sep)| == Count(s, sep) + 1
  {
    if s != [] {
      SplitCount(s[1..], sep);
    }
  }

  /** A separator-free prefix followed by a separator becomes a part of its own. */
  lemma {:induction false} SplitPrefix(a: string, sep: char, t: string)
    requires sep !in a
    ensures Split(a + [sep] + t, sep) == [a] + Split(t, sep)
  {
    if a != [] {
      assert (a + [sep] + t)[1..] == a[1..] + [sep] + t;
      SplitPrefix(a[1..], sep, t);
      assert (a + [sep] + t)[0] == a[0] && [a[0]] + a[1..] == a;
    } else {
      assert (a + [sep] + t)[1..] == t;
    }
  }

  /** A separator-free string is a single part. */
  lemma {:induction false} SplitWhole(a: string, sep: char)
    requires sep !in a
    ensures Split(a, sep) == [a]
  {
    if a != [] {
      SplitWhole(a[1..], sep);
      assert [a[0]] + a[1..] == a;
    }
  }
}
