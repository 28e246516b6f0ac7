/** The pieces of Go's `strings` and `strconv` packages, and of Go's byte-counting
    `len` on strings, that the server's code relies on. Go strings are UTF-8 byte
    sequences; here a string is a sequence of Unicode scalar values and its Go
    length is computed explicitly by ByteLen. */
module Text {
  import opened Wrappers

  // ---------------------------------------------------------------------------
  // len(s) on a Go string: the number of bytes of its UTF-8 encoding

  /** Bytes needed to encode one Unicode scalar value in UTF-8. */
  function Utf8Width(c: char): (n: nat)
    ensures 1 <= n <= 4
    ensures c as int < 0x80 <==> n == 1
  {
    if c as int < 0x80 then 1
    else if c as int < 0x800 then 2
    else if c as int < 0x10000 then 3
    else 4
  }

  /** Go's `len(s)` for a string: its UTF-8 byte length. */
  function ByteLen(s: string): (n: nat)
    ensures |s| <= n <= 4 * |s|
    ensures s == [] <==> n == 0
    decreases |s|
  {
    if s == [] then 0 else Utf8Width(s[0]) + ByteLen(s[1..])
  }

  predicate IsAscii(s: string) {
    forall i :: 0 <= i < |s| ==> s[i] as int < 0x80
  }

  /** On ASCII text the byte length is the character count. */
  lemma {:induction false} AsciiByteLen(s: string)
    requires IsAscii(s)
    ensures ByteLen(s) == |s|
    decreases |s|
  {
    if s != [] {
      assert IsAscii(s[1..]) by {
        forall i | 0 <= i < |s[1..]| ensures s[1..][i] as int < 0x80 {
          assert s[1..][i] == s[i + 1];
        }
      }
      AsciiByteLen(s[1..]);
    }
  }

  // ---------------------------------------------------------------------------
  // strings.HasPrefix, strings.TrimPrefix, strings.Contains

  predicate HasPrefix(s: string, prefix: string) {
    |prefix| <= |s| && s[..|prefix|] == prefix
  }

  /** strings.TrimPrefix: removes `prefix` once when s starts with it. */
  function TrimPrefix(s: string, prefix: string): (r: string)
    ensures HasPrefix(s, prefix) ==> prefix + r == s
    ensures !HasPrefix(s, prefix) ==> r == s
  {
    if HasPrefix(s, prefix) then s[|prefix|..] else s
  }

  predicate OccursAt(s: string, sub: string, i: int) {
    0 <= i && i + |sub| <= |s| && s[i..i + |sub|] == sub
  }

  /** strings.Contains: does `sub` occur anywhere in `s`. */
  function Contains(s: string, sub: string): (r: bool)
    ensures r <==> exists i :: OccursAt(s, sub, i)
    decreases |s|
  {
    if HasPrefix(s, sub) then
      assert OccursAt(s, sub, 0);
      true
    else if s == [] then
      assert forall i :: !OccursAt(s, sub, i);
      false
    else
      var rest := Contains(s[1..], sub);
      assert forall i :: OccursAt(s[1..], sub, i) <==> OccursAt(s, sub, i + 1) by {
        forall i ensures OccursAt(s[1..], sub, i) <==> OccursAt(s, sub, i + 1) {
          if 0 <= i && i + |sub| <= |s[1..]| {
            assert s[1..][i..i + |sub|] == s[i + 1..i + 1 + |sub|];
          }
        }
      }
      assert forall i :: OccursAt(s, sub, i) ==> i != 0 ==> OccursAt(s[1..], sub, i - 1);
      rest
  }

  // ---------------------------------------------------------------------------
  // strings.Split with a one-character separator, and its inverse strings.Join

  /** strings.Split(s, string(sep)): the pieces between separators; an empty
      string splits into one empty piece. */
  function Split(s: string, sep: char): (parts: seq<string>)
    ensures |parts| >= 1
    ensures forall i :: 0 <= i < |parts| ==> sep !in parts[i]
    decreases |s|
  {
    if s == [] then [""]
    else
      var rest := Split(s[1..], sep);
      if s[0] == sep then [""] + rest
      else [[s[0]] + rest[0]] + rest[1..]
  }

  function Join(parts: seq<string>, sep: char): string
    decreases |parts|
  {
    if |parts| == 0 then ""
    else if |parts| == 1 then parts[0]
    else parts[0] + [sep] + Join(parts[1..], sep)
  }

  /** Joining the pieces of a split with the same separator gives the input back. */
  lemma {:induction false} SplitJoin(s: string, sep: char)
    ensures Join(Split(s, sep), sep) == s
    decreases |s|
  {
    if s != [] {
      var rest := Split(s[1..], sep);
      SplitJoin(s[1..], sep);
      if s[0] == sep {
        assert Split(s, sep) == [""] + rest;
        assert ([""] + rest)[1..] == rest;
      } else {
        var parts := [[s[0]] + rest[0]] + rest[1..];
        assert Split(s, sep) == parts;
        if |rest| == 1 {
          assert parts == [[s[0]] + rest[0]];
        } else {
          assert parts[1..] == rest[1..];
          assert Join(rest, sep) == rest[0] + [sep] + Join(rest[1..], sep);
        }
      }
    }
  }

  /** A string without the separator is one piece. */
  lemma {:induction false} SplitSeparatorFree(t: string, sep: char)
    requires sep !in t
    ensures Split(t, sep) == [t]
    decreases |t|
  {
    if t != [] {
      SplitSeparatorFree(t[1..], sep);
      assert [t[0]] + t[1..] == t;
    }
  }

  /** A separator-free head followed by a separator splits off as the first piece. */
  lemma {:induction false} SplitAfterHead(a: string, sep: char, b: string)
    requires sep !in a
    ensures Split(a + [sep] + b, sep) == [a] + Split(b, sep)
    decreases |a|
  {
    var s := a + [sep] + b;
    if a == [] {
      assert s[0] == sep && s[1..] == b;
    } else {
      assert s[0] == a[0] && s[1..] == a[1..] + [sep] + b;
      SplitAfterHead(a[1..], sep, b);
      assert [a[0]] + a[1..] == a;
    }
  }

  // ---------------------------------------------------------------------------
  // strconv.FormatInt(n, 10) and strconv.ParseInt(s, 10, 64)

  const MaxInt64: int := 0x7fff_ffff_ffff_ffff
  const MinInt64: int := -0x8000_0000_0000_0000
  const MaxUint64: int := 0xffff_ffff_ffff_ffff

  predicate IsInt64(n: int) {
    MinInt64 <= n <= MaxInt64
  }

  predicate IsDigit(c: char) {
    '0' <= c <= '9'
  }

  predicate AllDigits(s: string) {
    forall i :: 0 <= i < |s| ==> IsDigit(s[i])
  }

  function DigitChar(d: int): char
    requires 0 <= d < 10
  {
    ('0' as int + d) as char
  }

  function DigitValue(c: char): int
    requires IsDigit(c)
  {
    c as int - '0' as int
  }

  /** Decimal digits of a natural number, most significant first, no leading zeros. */
  function NatDigits(n: nat): (s: string)
    ensures |s| >= 1 && AllDigits(s)
    ensures n >= 10 ==> s[0] != '0'
    decreases n
  {
    if n < 10 then [DigitChar(n)] else NatDigits(n / 10) + [DigitChar(n % 10)]
  }

  /** strconv.FormatInt(n, 10): optional minus sign, then the digits of |n|. */
  function FormatInt(n: int): (s: string)
    ensures |s| >= 1
    ensures (s[0] == '-') <==> n < 0
    ensures forall i :: 0 <= i < |s| ==> IsDigit(s[i]) || (i == 0 && s[i] == '-')
  {
    if n < 0 then "-" + NatDigits(-n) else NatDigits(n)
  }

  /** Horner's rule, left to right, starting from the accumulator `acc`. */
  function Horner(acc: nat, ds: string): nat
    requires AllDigits(ds)
    decreases |ds|
  {
    if ds == [] then acc else Horner(acc * 10 + DigitValue(ds[0]), ds[1..])
  }

  lemma {:induction false} HornerGrows(acc: nat, ds: string)
    requires AllDigits(ds)
    ensures Horner(acc, ds) >= acc
    ensures ds != [] ==> Horner(acc, ds) >= acc * 10
    decreases |ds|
  {
    if ds != [] {
      HornerGrows(acc * 10 + DigitValue(ds[0]), ds[1..]);
    }
  }

  lemma {:induction false} HornerSnoc(acc: nat, ds: string, c: char)
    requires AllDigits(ds) && IsDigit(c)
    ensures AllDigits(ds + [c])
    ensures Horner(acc, ds + [c]) == Horner(acc, ds) * 10 + DigitValue(c)
    decreases |ds|
  {
    assert AllDigits(ds + [c]) by {
      forall i | 0 <= i < |ds + [c]| ensures IsDigit((ds + [c])[i]) {
        if i < |ds| { assert (ds + [c])[i] == ds[i]; }
      }
    }
    if ds != [] {
      assert (ds + [c])[1..] == ds[1..] + [c];
      HornerSnoc(acc * 10 + DigitValue(ds[0]), ds[1..], c);
    }
  }

  /** Reading back the digits of n with Horner's rule gives n. */
  lemma {:induction false} NatDigitsValue(n: nat)
    ensures Horner(0, NatDigits(n)) == n
    decreases n
  {
    if n >= 10 {
      NatDigitsValue(n / 10);
      HornerSnoc(0, NatDigits(n / 10), DigitChar(n % 10));
    }
  }

  datatype NumError = ErrSyntax | ErrRange

  /** The outcome of strconv.ParseUint's digit loop: a value, or the error it stops at. */
  datatype UintScan = Scanned(value: nat) | ScanSyntax | ScanRange

  /** The digit loop of strconv.ParseUint(s, 10, 64), from the accumulator n:
      a non-digit is a syntax error; an accumulator that would overflow 64 bits
      stops the loop with a range error at once, before later characters are seen. */
  function ScanUint(s: string, n: nat): (r: UintScan)
    requires n <= MaxUint64
    ensures r.Scanned? ==> r.value <= MaxUint64
    decreases |s|
  {
    if s == [] then Scanned(n)
    else if !IsDigit(s[0]) then ScanSyntax
    else if n >= MaxUint64 / 10 + 1 then ScanRange
    else
      var n1 := n * 10 + DigitValue(s[0]);
      if n1 > MaxUint64 then ScanRange else ScanUint(s[1..], n1)
  }

  lemma {:induction false} ScanDigits(s: string, n: nat)
    requires n <= MaxUint64 && AllDigits(s)
    requires Horner(n, s) <= MaxUint64
    ensures ScanUint(s, n) == Scanned(Horner(n, s))
    decreases |s|
  {
    if s != [] {
      var n1 := n * 10 + DigitValue(s[0]);
      assert AllDigits(s[1..]) by {
        forall i | 0 <= i < |s[1..]| ensures IsDigit(s[1..][i]) { assert s[1..][i] == s[i + 1]; }
      }
      HornerGrows(n1, s[1..]);
      HornerGrows(n, s);
      ScanDigits(s[1..], n1);
    }
  }

  /** What strconv.ParseInt(s, 10, 64) returns: the value and the error. On a
      syntax error the value is 0; on a range error it is clamped to the int64 bound. */
  datatype ParsedInt = ParsedInt(value: int, err: Option<NumError>)

  function ParseInt(s: string): (r: ParsedInt)
    ensures IsInt64(r.value)
    ensures r.err == Some(ErrSyntax) ==> r.value == 0
    ensures s == [] ==> r.err == Some(ErrSyntax)
  {
    if s == [] then ParsedInt(0, Some(ErrSyntax))
    else
      var neg := s[0] == '-';
      var body := if s[0] == '+' || s[0] == '-' then s[1..] else s;
      if body == [] then ParsedInt(0, Some(ErrSyntax))
      else
        match ScanUint(body, 0)
        case ScanSyntax => ParsedInt(0, Some(ErrSyntax))
        case ScanRange => ParsedInt(if neg then MinInt64 else MaxInt64, Some(ErrRange))
        case Scanned(un) =>
          if !neg && un >= 0x8000_0000_0000_0000 then ParsedInt(MaxInt64, Some(ErrRange))
          else if neg && un > 0x8000_0000_0000_0000 then ParsedInt(MinInt64, Some(ErrRange))
          else ParsedInt(if neg then -(un as int) else un as int, None)
  }

  /** FormatInt and ParseInt are inverse on every 64-bit integer. */
  lemma ParseFormatInt(n: int)
    requires IsInt64(n)
    ensures ParseInt(FormatInt(n)) == ParsedInt(n, None)
  {
    var m: nat := if n < 0 then -n else n;
    var ds := NatDigits(m);
    NatDigitsValue(m);
    ScanDigits(ds, 0);
    if n < 0 {
      assert FormatInt(n) == "-" + ds;
      assert ("-" + ds)[1..] == ds;
    } else {
      assert ds[0] != '-' && ds[0] != '+';
    }
  }

  /** Distinct integers print differently. */
  lemma FormatIntInjective(a: int, b: int)
    ensures FormatInt(a) == FormatInt(b) ==> a == b
  {
    if FormatInt(a) == FormatInt(b) {
      var ma: nat := if a < 0 then -a else a;
      var mb: nat := if b < 0 then -b else b;
      NatDigitsValue(ma);
      NatDigitsValue(mb);
      if a < 0 {
        assert NatDigits(ma) == FormatInt(a)[1..];
        assert NatDigits(mb) == FormatInt(b)[1..];
      }
    }
  }
}
