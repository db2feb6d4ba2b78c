/**
 * Go strings as byte sequences, and the parts of Go's `strings` and `strconv`
 * packages that the handlers rely on: `strings.Split`, `strconv.ParseInt`
 * (base 10, 64 bits, which is also `strconv.Atoi` on a 64-bit platform) and
 * decimal rendering (`%d`).
 */
module GoText {
  import opened Wrappers

  /** One byte of a Go string. */
  type byte = b: int | 0 <= b < 256

  /** A Go string: `len(s)` in Go is `|s|` here. */
  type Bytes = seq<byte>

  const MaxInt64: int := 0x7FFF_FFFF_FFFF_FFFF
  const MinInt64: int := -0x8000_0000_0000_0000

  const Space: byte := 32
  const Comma: byte := 44
  const Plus: byte := 43
  const Minus: byte := 45

  predicate IsAscii(s: string) {
    forall i | 0 <= i < |s| :: s[i] as int < 128
  }

  /** The UTF-8 bytes of an ASCII Go string literal. */
  function Ascii(s: string): (b: Bytes)
    requires IsAscii(s)
    ensures |b| == |s|
    ensures forall i | 0 <= i < |s| :: b[i] == s[i] as int
  {
    seq(|s|, i requires 0 <= i < |s| => s[i] as int)
  }

  lemma AsciiConcat(a: string, b: string)
    requires IsAscii(a) && IsAscii(b)
    ensures IsAscii(a + b) && Ascii(a + b) == Ascii(a) + Ascii(b)
  {
    assert forall i | 0 <= i < |a + b| :: (a + b)[i] == if i < |a| then a[i] else b[i - |a|];
  }

  // ---------------------------------------------------------------------
  // Decimal digits
  // ---------------------------------------------------------------------

  predicate IsDigit(b: byte) { 48 <= b <= 57 }

  predicate AllDigits(s: Bytes) { forall i | 0 <= i < |s| :: IsDigit(s[i]) }

  /** The number a run of decimal digits denotes (leading zeros allowed). */
  function DigitsValue(s: Bytes): (n: nat)
    requires AllDigits(s)
  {
    if s == [] then 0 else DigitsValue(s[..|s| - 1]) * 10 + (s[|s| - 1] - 48)
  }

  /** The decimal digits of a natural number, most significant first. */
  function NatDigits(n: nat): (s: string)
    ensures |s| >= 1 && IsAscii(s)
    ensures forall i | 0 <= i < |s| :: '0' <= s[i] <= '9'
    ensures s[0] == '0' ==> n == 0
  {
    if n < 10 then [(48 + n) as char] else NatDigits(n / 10) + [(48 + n % 10) as char]
  }

  /** Go's `%d` rendering of an integer (`strconv.FormatInt(n, 10)`). */
  function Itoa(n: int): (s: string)
    ensures |s| >= 1 && IsAscii(s)
  {
    if n < 0 then "-" + NatDigits(-n) else NatDigits(n)
  }

  /**
   * `strconv.ParseInt(s, 10, 64)` and `strconv.Atoi(s)`: an optional `+` or `-`,
   * then at least one decimal digit and nothing else; the value must fit in a
   * signed 64-bit integer. `None` stands for the returned error (syntax or range).
   */
  function ParseInt64(s: Bytes): (r: Option<int>)
    ensures r.Some? ==> MinInt64 <= r.value <= MaxInt64
  {
    if s == [] then None
    else
      var neg := s[0] == Minus;
      var digits := if s[0] == Plus || s[0] == Minus then s[1..] else s;
      if digits == [] || !AllDigits(digits) then None
      else
        var v: int := if neg then -(DigitsValue(digits) as int) else DigitsValue(digits);
        if MinInt64 <= v <= MaxInt64 then Some(v) else None
  }

  lemma {:induction false} DigitsValueOfNatDigits(n: nat)
    ensures AllDigits(Ascii(NatDigits(n)))
    ensures DigitsValue(Ascii(NatDigits(n))) == n
  {
    var s := Ascii(NatDigits(n));
    if n >= 10 {
      DigitsValueOfNatDigits(n / 10);
      var last := [(48 + n % 10) as char];
      AsciiConcat(NatDigits(n / 10), last);
      assert s[..|s| - 1] == Ascii(NatDigits(n / 10));
    }
  }

  /** An unsigned run of digits parses to its value when that fits in 64 bits. */
  lemma ParseUnsigned(d: Bytes)
    requires d != [] && AllDigits(d) && DigitsValue(d) <= MaxInt64
    ensures ParseInt64(d) == Some(DigitsValue(d))
  {
    assert d[0] != Plus && d[0] != Minus by { assert IsDigit(d[0]); }
  }

  /** A minus sign followed by digits parses to the negated value when that fits in 64 bits. */
  lemma ParseNegative(d: Bytes)
    requires d != [] && AllDigits(d) && DigitsValue(d) <= -MinInt64
    ensures ParseInt64([Minus] + d) == Some(-(DigitsValue(d) as int))
  {
    assert ([Minus] + d)[1..] == d;
  }

  /** Parsing the decimal rendering of any 64-bit integer gives it back. */
  lemma ParseItoa(n: int)
    requires MinInt64 <= n <= MaxInt64
    ensures ParseInt64(Ascii(Itoa(n))) == Some(n)
  {
    if n < 0 {
      AsciiConcat("-", NatDigits(-n));
      DigitsValueOfNatDigits(-n);
      assert Ascii("-") == [Minus];
      ParseNegative(Ascii(NatDigits(-n)));
    } else {
      DigitsValueOfNatDigits(n);
      ParseUnsigned(Ascii(NatDigits(n)));
    }
  }

  /** Distinct 64-bit integers render to distinct decimal strings. */
  lemma ItoaInjective(a: int, b: int)
    requires MinInt64 <= a <= MaxInt64 && MinInt64 <= b <= MaxInt64
    requires Itoa(a) == Itoa(b)
    ensures a == b
  {
    ParseItoa(a);
    ParseItoa(b);
  }

  // ---------------------------------------------------------------------
  // strings.Split with a one-byte separator
  // ---------------------------------------------------------------------

  /** Number of occurrences of `c` in `s`. */
  function Count(s: Bytes, c: byte): nat
  {
    if s == [] then 0 else (if s[0] == c then 1 else 0) + Count(s[1..], c)
  }

  /** `strings.Split(s, sep)`: the pieces between occurrences of `sep`; `""` gives `[""]`. */
  function Split(s: Bytes, sep: byte): (parts: seq<Bytes>)
    ensures |parts| >= 1
  {
    if s == [] then [[]]
    else
      var rest := Split(s[1..], sep);
      if s[0] == sep then [[]] + rest
      else [[s[0]] + rest[0]] + rest[1..]
  }

  /** `strings.Join(parts, sep)`. */
  function Join(parts: seq<Bytes>, sep: byte): Bytes
  {
    if parts == [] then []
    else if |parts| == 1 then parts[0]
    else parts[0] + [sep] + Join(parts[1..], sep)
  }

  lemma {:induction false} SplitProperties(s: Bytes, sep: byte)
    ensures Join(Split(s, sep), sep) == s
    ensures |Split(s, sep)| == Count(s, sep) + 1
    ensures forall i | 0 <= i < |Split(s, sep)| :: sep !in Split(s, sep)[i]
  {
    if s != [] {
      SplitProperties(s[1..], sep);
      var rest := Split(s[1..], sep);
      if s[0] == sep {
        assert Split(s, sep)[1..] == rest;
        assert s == [s[0]] + s[1..];
      } else {
        var parts := Split(s, sep);
        assert parts[0] == [s[0]] + rest[0];
        assert parts[1..] == rest[1..];
        if |rest| == 1 {
          assert s == [s[0]] + s[1..];
        } else {
          assert Join(rest, sep) == rest[0] + [sep] + Join(rest[1..], sep);
          assert s == [s[0]] + s[1..];
        }
        forall i | 0 <= i < |parts| ensures sep !in parts[i] {
          if i > 0 { assert parts[i] == rest[i]; }
        }
      }
    }
  }

  /** Splitting a join of separator-free pieces gives the pieces back. */
  lemma {:induction false} SplitJoin(parts: seq<Bytes>, sep: byte)
    requires |parts| >= 1
    requires forall i | 0 <= i < |parts| :: sep !in parts[i]
    ensures Split(Join(parts, sep), sep) == parts
    decreases |parts|, |parts[0]|
  {
    if parts[0] != [] {
      var p := parts[0];
      var tail := [p[1..]] + parts[1..];
      assert sep !in tail[0];
      assert forall i | 1 <= i < |tail| :: tail[i] == parts[i];
      SplitJoin(tail, sep);
      if |parts| == 1 {
        assert Join(parts, sep) == p;
        assert Join(tail, sep) == p[1..];
      } else {
        assert Join(parts, sep) == p + [sep] + Join(parts[1..], sep);
        assert Join(tail, sep) == p[1..] + [sep] + Join(parts[1..], sep);
        assert Join(parts, sep)[1..] == Join(tail, sep);
      }
      assert Join(parts, sep)[0] == p[0];
      assert p[0] != sep;
      assert p == [p[0]] + p[1..];
      assert parts == [[p[0]] + tail[0]] + tail[1..];
    } else if |parts| > 1 {
      SplitJoin(parts[1..], sep);
      assert Join(parts, sep) == [sep] + Join(parts[1..], sep);
      assert Join(parts, sep)[1..] == Join(parts[1..], sep);
      assert parts == [[]] + parts[1..];
    }
  }

  /** `strings.Split(s, sep)` is exactly `[a, b]` iff `s` is `a`, `sep`, `b` with no other `sep`. */
  lemma SplitIntoTwo(s: Bytes, sep: byte, a: Bytes, b: Bytes)
    ensures Split(s, sep) == [a, b] <==> (s == a + [sep] + b && sep !in a && sep !in b)
  {
    if Split(s, sep) == [a, b] {
      SplitProperties(s, sep);
      assert Join([a, b], sep) == a + [sep] + Join([b], sep);
    }
    if s == a + [sep] + b && sep !in a && sep !in b {
      assert Join([a, b], sep) == a + [sep] + Join([b], sep);
      SplitJoin([a, b], sep);
    }
  }
}
