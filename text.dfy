/** String operations the core relies on: `starts_with`, `split`/`join`, `replace`,
    decimal formatting of integers (`{}` on a `u64`) and `str::parse::<u64>`. */
module Text {
  import opened Wrappers

  /** 2^64: every `u64` is below it. */
  const U64Limit: nat := 0x1_0000_0000_0000_0000

  predicate StartsWith(s: string, prefix: string) {
    |prefix| <= |s| && s[..|prefix|] == prefix
  }

  lemma Assoc(a: string, b: string, c: string)
    ensures a + b + c == a + (b + c)
  {
  }

  lemma DropPrefix(prefix: string, rest: string)
    ensures StartsWith(prefix + rest, prefix) && (prefix + rest)[|prefix|..] == rest
  {
  }

  /** Two prefixes of one string: the shorter is a prefix of the longer. */
  lemma PrefixOfPrefix(s: string, p: string, q: string)
    requires StartsWith(s, p) && StartsWith(s, q)
    ensures |p| <= |q| ==> StartsWith(q, p)
  {
    if |p| <= |q| {
      assert q[..|p|] == s[..|q|][..|p|] == s[..|p|];
    }
  }

  // ---------------------------------------------------------------- decimal numbers

  predicate IsDigit(c: char) {
    '0' <= c <= '9'
  }

  predicate AllDigits(s: string) {
    forall i :: 0 <= i < |s| ==> IsDigit(s[i])
  }

  function DigitChar(d: nat): (c: char)
    requires d < 10
    ensures IsDigit(c)
  {
    (('0' as int) + d) as char
  }

  function DigitValue(c: char): (d: nat)
    requires IsDigit(c)
    ensures d < 10 && DigitChar(d) == c
  {
    (c as int) - ('0' as int)
  }

  /** The decimal text of `n`, as Rust's `Display` writes an unsigned integer. */
  function NatToString(n: nat): (s: string)
    ensures |s| >= 1 && AllDigits(s)
    ensures s[0] == '0' ==> n == 0
    decreases n
  {
    if n < 10 then [DigitChar(n)] else NatToString(n / 10) + [DigitChar(n % 10)]
  }

  /** The value of a string of decimal digits (most significant first). */
  function ParseDigits(s: string): nat
    requires AllDigits(s)
    decreases |s|
  {
    if |s| == 0 then 0 else ParseDigits(s[..|s| - 1]) * 10 + DigitValue(s[|s| - 1])
  }

  /** Reading back the decimal text of `n` gives `n`. */
  lemma {:induction false} ParseNatToString(n: nat)
    ensures ParseDigits(NatToString(n)) == n
    decreases n
  {
    if n >= 10 {
      var s := NatToString(n);
      assert s[..|s| - 1] == NatToString(n / 10);
      ParseNatToString(n / 10);
    }
  }

  /** `str::parse::<u64>`: an optional `+` (not on its own), then one or more
      decimal digits, and a value that fits in 64 bits; anything else is an error. */
  function ParseU64(s: string): Option<nat>
  {
    var digits := if |s| >= 2 && s[0] == '+' then s[1..] else s;
    if |digits| == 0 || !AllDigits(digits) then None
    else if ParseDigits(digits) < U64Limit then Some(ParseDigits(digits))
    else None
  }

  /** Every `u64` survives formatting followed by parsing. */
  lemma ParseU64OfNatToString(n: nat)
    requires n < U64Limit
    ensures ParseU64(NatToString(n)) == Some(n)
  {
    ParseNatToString(n);
  }

  /** The longest prefix of decimal digits, and what follows it. */
  function TakeDigits(s: string): (r: (string, string))
    ensures r.0 + r.1 == s && AllDigits(r.0)
    ensures r.1 == [] || !IsDigit(r.1[0])
    decreases |s|
  {
    if |s| == 0 || !IsDigit(s[0]) then ([], s)
    else
      var (d, rest) := TakeDigits(s[1..]);
      ([s[0]] + d, rest)
  }

  lemma {:induction false} TakeDigitsSplit(d: string, rest: string)
    requires AllDigits(d)
    requires rest == [] || !IsDigit(rest[0])
    ensures TakeDigits(d + rest) == (d, rest)
    decreases |d|
  {
    if |d| > 0 {
      assert (d + rest)[0] == d[0] && IsDigit(d[0]);
      assert (d + rest)[1..] == d[1..] + rest;
      TakeDigitsSplit(d[1..], rest);
      assert [d[0]] + d[1..] == d;
    } else {
      assert d + rest == rest;
    }
  }

  // ---------------------------------------------------------------- split and join

  /** `str::split` on one separator character: always at least one part. */
  function Split(s: string, sep: char): (parts: seq<string>)
    ensures |parts| >= 1
    decreases |s|
  {
    if |s| == 0 then [""]
    else if s[0] == sep then [""] + Split(s[1..], sep)
    else
      var rest := Split(s[1..], sep);
      [[s[0]] + rest[0]] + rest[1..]
  }

  /** `join` with a one-character separator. */
  function Join(parts: seq<string>, sep: char): string
    requires |parts| >= 1
    decreases |parts|
  {
    if |parts| == 1 then parts[0] else parts[0] + [sep] + Join(parts[1..], sep)
  }

  /** Joining the parts of a split restores the string. */
  lemma {:induction false} JoinSplit(s: string, sep: char)
    ensures Join(Split(s, sep), sep) == s
    decreases |s|
  {
    if |s| > 0 {
      var rest := Split(s[1..], sep);
      JoinSplit(s[1..], sep);
      if s[0] == sep {
        assert Split(s, sep)[1..] == rest;
      } else if |rest| == 1 {
        assert Split(s, sep) == [[s[0]] + rest[0]];
      } else {
        var parts := Split(s, sep);
        assert parts[1..] == rest[1..];
        calc {
          Join(parts, sep);
          [s[0]] + rest[0] + [sep] + Join(rest[1..], sep);
          { Assoc([s[0]], rest[0], [sep]); Assoc([s[0]], rest[0] + [sep], Join(rest[1..], sep)); }
          [s[0]] + (rest[0] + [sep] + Join(rest[1..], sep));
          [s[0]] + Join(rest, sep);
          [s[0]] + s[1..];
        }
      }
    }
  }

  /** No part of a split holds the separator, and every character of a part comes from the string. */
  lemma {:induction false} SplitParts(s: string, sep: char)
    ensures forall k, i :: 0 <= k < |Split(s, sep)| && 0 <= i < |Split(s, sep)[k]| ==>
              Split(s, sep)[k][i] != sep && Split(s, sep)[k][i] in s
    decreases |s|
  {
    if |s| > 0 {
      SplitParts(s[1..], sep);
    }
  }

  /** A string without the separator is a single part. */
  lemma {:induction false} SplitNoSep(a: string, sep: char)
    requires sep !in a
    ensures Split(a, sep) == [a]
    decreases |a|
  {
    if |a| > 0 {
      assert a[0] != sep && sep !in a[1..];
      SplitNoSep(a[1..], sep);
      assert [a[0]] + a[1..] == a;
    }
  }

  /** A separator-free leading part, then the separator: the part comes off the front. */
  lemma {:induction false} SplitCons(a: string, b: string, sep: char)
    requires sep !in a
    ensures Split(a + [sep] + b, sep) == [a] + Split(b, sep)
    decreases |a|
  {
    if |a| == 0 {
      assert a + [sep] + b == [sep] + b;
      assert ([sep] + b)[1..] == b;
    } else {
      assert (a + [sep] + b)[1..] == a[1..] + [sep] + b;
      assert (a + [sep] + b)[0] == a[0] != sep && sep !in a[1..];
      SplitCons(a[1..], b, sep);
      assert [a[0]] + a[1..] == a;
    }
  }

  // ---------------------------------------------------------------- replace

  predicate OccursAt(s: string, pattern: string, i: nat) {
    i + |pattern| <= |s| && s[i..i + |pattern|] == pattern
  }

  predicate Occurs(s: string, pattern: string) {
    exists i: nat :: i <= |s| && OccursAt(s, pattern, i)
  }

  /** `str::replace`: every non-overlapping occurrence of `pattern`, scanned left to right,
      becomes `replacement`. */
  function ReplaceAll(s: string, pattern: string, replacement: string): string
    requires |pattern| > 0
    decreases |s|
  {
    if |s| < |pattern| then s
    else if s[..|pattern|] == pattern then replacement + ReplaceAll(s[|pattern|..], pattern, replacement)
    else [s[0]] + ReplaceAll(s[1..], pattern, replacement)
  }

  /** Replacing a pattern that does not occur changes nothing. */
  lemma {:induction false} ReplaceAbsent(s: string, pattern: string, replacement: string)
    requires |pattern| > 0 && !Occurs(s, pattern)
    ensures ReplaceAll(s, pattern, replacement) == s
    decreases |s|
  {
    if |s| >= |pattern| {
      assert !OccursAt(s, pattern, 0);
      assert !Occurs(s[1..], pattern) by {
        forall i: nat | i <= |s[1..]| ensures !OccursAt(s[1..], pattern, i) {
          assert !OccursAt(s, pattern, i + 1);
          if i + |pattern| <= |s[1..]| {
            assert s[1..][i..i + |pattern|] == s[i + 1..i + 1 + |pattern|];
          }
        }
      }
      ReplaceAbsent(s[1..], pattern, replacement);
    }
  }

  // ---------------------------------------------------------------- ASCII case

  function ToUpper(c: char): char {
    if 'a' <= c <= 'z' then (c as int - 32) as char else c
  }

  function ToLower(c: char): char {
    if 'A' <= c <= 'Z' then (c as int + 32) as char else c
  }

  predicate IsLowerLetter(c: char) {
    'a' <= c <= 'z'
  }
}
