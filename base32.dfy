/** Base 32 encoding of section 6 of RFC 4648 ("Base 32 Encoding"), without
    padding, as base32.StdEncoding.WithPadding(base32.NoPadding) produces it.
    Input is cut into chunks of five bytes (40 bits) and each chunk becomes eight
    5-bit symbols; a shorter final chunk is read with zero bytes after it and only
    the symbols that carry its bits are emitted. Decode is the inverse, written
    here so that the encoding can be shown lossless. */
module Base32 {
  import opened Wrappers
  import Text

  type Byte = b: int | 0 <= b < 256

  const Alphabet: string := "ABCDEFGHIJKLMNOPQRSTUVWXYZ234567"

  predicate IsSymbol(c: char) {
    'A' <= c <= 'Z' || '2' <= c <= '7'
  }

  function Symbol(v: int): (c: char)
    requires 0 <= v < 32
    ensures IsSymbol(c)
    ensures c == Alphabet[v]
  {
    if v < 26 then ('A' as int + v) as char else ('2' as int + v - 26) as char
  }

  function SymbolValue(c: char): (v: Option<int>)
    ensures v.Some? ==> 0 <= v.value < 32 && Symbol(v.value) == c
    ensures IsSymbol(c) <==> v.Some?
  {
    if 'A' <= c <= 'Z' then Some(c as int - 'A' as int)
    else if '2' <= c <= '7' then Some(c as int - '2' as int + 26)
    else None
  }

  /** The byte at position i of a chunk, zero past its end. */
  function ByteAt(b: seq<Byte>, i: nat): Byte {
    if i < |b| then b[i] else 0
  }

  /** The eight 5-bit groups of a 40-bit chunk, most significant first. */
  function Groups(b: seq<Byte>): (g: seq<int>)
    ensures |g| == 8 && forall i :: 0 <= i < 8 ==> 0 <= g[i] < 32
  {
    var b0, b1, b2, b3, b4 := ByteAt(b, 0), ByteAt(b, 1), ByteAt(b, 2), ByteAt(b, 3), ByteAt(b, 4);
    [ b0 / 8,
      (b0 % 8) * 4 + b1 / 64,
      (b1 / 2) % 32,
      (b1 % 2) * 16 + b2 / 16,
      (b2 % 16) * 2 + b3 / 128,
      (b3 / 4) % 32,
      (b3 % 4) * 8 + b4 / 32,
      b4 % 32 ]
  }

  /** Symbols emitted for a chunk of k bytes: ceil(8k / 5). */
  function SymbolsFor(k: nat): nat {
    (8 * k + 4) / 5
  }

  function EncodeChunk(b: seq<Byte>): (s: string)
    requires 1 <= |b| <= 5
    ensures |s| == SymbolsFor(|b|)
  {
    var g := Groups(b);
    seq(SymbolsFor(|b|), i requires 0 <= i < SymbolsFor(|b|) => Symbol(g[i]))
  }

  /** EncodeToString without padding. */
  function Encode(b: seq<Byte>): (s: string)
    ensures |s| == SymbolsFor(|b|)
    ensures forall i :: 0 <= i < |s| ==> IsSymbol(s[i])
    decreases |b|
  {
    if b == [] then ""
    else if |b| <= 5 then EncodeChunk(b)
    else EncodeChunk(b[..5]) + Encode(b[5..])
  }

  /** The bytes carried by up to eight symbol values; missing values read as zero. */
  function DecodeGroups(g: seq<int>): (b: seq<Byte>)
    requires |g| in {2, 4, 5, 7, 8}
    requires forall i :: 0 <= i < |g| ==> 0 <= g[i] < 32
    ensures |b| == |g| * 5 / 8
  {
    var c := seq(8, i requires 0 <= i < 8 => if i < |g| then g[i] else 0);
    var all: seq<Byte> := [ c[0] * 8 + c[1] / 4,
                 (c[1] % 4) * 64 + c[2] * 2 + c[3] / 16,
                 (c[3] % 16) * 16 + c[4] / 2,
                 (c[4] % 2) * 128 + c[5] * 4 + c[6] / 8,
                 (c[6] % 8) * 32 + c[7] ];
    all[..|g| * 5 / 8]
  }

  function SymbolValues(s: string): (r: Option<seq<int>>)
    ensures r.Some? ==> |r.value| == |s| && forall i :: 0 <= i < |s| ==> 0 <= r.value[i] < 32
    decreases |s|
  {
    if s == [] then Some([])
    else
      match (SymbolValue(s[0]), SymbolValues(s[1..]))
      case (Some(v), Some(vs)) => Some([v] + vs)
      case _ => None
  }

  /** Decoding of unpadded base 32 text; None for a symbol outside the alphabet
      or a length no encoding has. */
  function Decode(s: string): Option<seq<Byte>>
    decreases |s|
  {
    if s == [] then Some([])
    else if |s| <= 8 then
      if |s| in {2, 4, 5, 7, 8} then
        match SymbolValues(s)
        case Some(g) => Some(DecodeGroups(g))
        case None => None
      else None
    else
      match (Decode(s[..8]), Decode(s[8..]))
      case (Some(x), Some(y)) => Some(x + y)
      case _ => None
  }

  lemma SymbolValuesOfSymbols(g: seq<int>)
    requires forall i :: 0 <= i < |g| ==> 0 <= g[i] < 32
    ensures SymbolValues(seq(|g|, i requires 0 <= i < |g| => Symbol(g[i]))) == Some(g)
    decreases |g|
  {
    var s := seq(|g|, i requires 0 <= i < |g| => Symbol(g[i]));
    if g != [] {
      var t := seq(|g| - 1, i requires 0 <= i < |g| - 1 => Symbol(g[1..][i]));
      assert s[1..] == t;
      SymbolValuesOfSymbols(g[1..]);
      assert [g[0]] + g[1..] == g;
    }
  }

  /** Decoding the symbols of one chunk gives the chunk back. */
  lemma ChunkRoundTrip(b: seq<Byte>)
    requires 1 <= |b| <= 5
    ensures Decode(EncodeChunk(b)) == Some(b)
  {
    var g := Groups(b);
    var n := SymbolsFor(|b|);
    assert n in {2, 4, 5, 7, 8} by {
      assert |b| == 1 || |b| == 2 || |b| == 3 || |b| == 4 || |b| == 5;
    }
    var gs := g[..n];
    assert EncodeChunk(b) == seq(|gs|, i requires 0 <= i < |gs| => Symbol(gs[i]));
    SymbolValuesOfSymbols(gs);
    var d := DecodeGroups(gs);
    assert |d| == |b|;
    forall i | 0 <= i < |b| ensures d[i] == b[i] {
      ByteRecovered(b, i);
    }
    assert d == b;
  }

  lemma ByteRecovered(b: seq<Byte>, i: nat)
    requires 1 <= |b| <= 5 && i < |b|
    ensures var gs := Groups(b)[..SymbolsFor(|b|)]; |gs| in {2, 4, 5, 7, 8} && DecodeGroups(gs)[i] == b[i]
  {
    var g := Groups(b);
    var gs := g[..SymbolsFor(|b|)];
    assert |gs| in {2, 4, 5, 7, 8} by {
      assert |b| == 1 || |b| == 2 || |b| == 3 || |b| == 4 || |b| == 5;
    }
    var c := seq(8, j requires 0 <= j < 8 => if j < |gs| then gs[j] else 0);
    var b0, b1, b2, b3, b4 := ByteAt(b, 0), ByteAt(b, 1), ByteAt(b, 2), ByteAt(b, 3), ByteAt(b, 4);
    assert SymbolsFor(i + 1) <= |gs| by {
      assert i + 1 <= |b|;
    }
    if i == 0 {
      assert c[0] == g[0] && c[1] == g[1];
      Byte0(b0, b1);
    } else if i == 1 {
      assert c[1] == g[1] && c[2] == g[2] && c[3] == g[3];
      Byte1(b0, b1, b2);
    } else if i == 2 {
      assert c[3] == g[3] && c[4] == g[4];
      Byte2(b1, b2, b3);
    } else if i == 3 {
      assert c[4] == g[4] && c[5] == g[5] && c[6] == g[6];
      Byte3(b2, b3, b4);
    } else {
      assert c[6] == g[6] && c[7] == g[7];
      Byte4(b3, b4);
    }
  }

  /** The bit-field identities ByteRecovered uses, one byte position each, kept
      apart so that each is checked without the surrounding sequence facts. */
  lemma Byte0(b0: Byte, b1: Byte)
    ensures (b0 / 8) * 8 + ((b0 % 8) * 4 + b1 / 64) / 4 == b0
  {
  }

  lemma Byte1(b0: Byte, b1: Byte, b2: Byte)
    ensures (((b0 % 8) * 4 + b1 / 64) % 4) * 64 + ((b1 / 2) % 32) * 2 + ((b1 % 2) * 16 + b2 / 16) / 16 == b1
  {
  }

  lemma Byte2(b1: Byte, b2: Byte, b3: Byte)
    ensures (((b1 % 2) * 16 + b2 / 16) % 16) * 16 + ((b2 % 16) * 2 + b3 / 128) / 2 == b2
  {
  }

  lemma Byte3(b2: Byte, b3: Byte, b4: Byte)
    ensures (((b2 % 16) * 2 + b3 / 128) % 2) * 128 + ((b3 / 4) % 32) * 4 + ((b3 % 4) * 8 + b4 / 32) / 8 == b3
  {
  }

  lemma Byte4(b3: Byte, b4: Byte)
    ensures (((b3 % 4) * 8 + b4 / 32) % 8) * 32 + b4 % 32 == b4
  {
  }

  /** Decode inverts Encode: no two byte strings share an encoding. */
  lemma {:induction false} EncodeDecode(b: seq<Byte>)
    ensures Decode(Encode(b)) == Some(b)
    decreases |b|
  {
    if b == [] {
    } else if |b| <= 5 {
      ChunkRoundTrip(b);
    } else {
      var s := Encode(b);
      var head := EncodeChunk(b[..5]);
      assert |head| == 8;
      assert s[..8] == head && s[8..] == Encode(b[5..]);
      ChunkRoundTrip(b[..5]);
      EncodeDecode(b[5..]);
      assert b[..5] + b[5..] == b;
    }
  }

  /** Sixteen random bytes encode to 26 symbols from A-Z and 2-7, which is also
      26 bytes of UTF-8. */
  lemma SixteenBytesEncodeTo26(b: seq<Byte>)
    requires |b| == 16
    ensures |Encode(b)| == 26
    ensures forall i :: 0 <= i < 26 ==> IsSymbol(Encode(b)[i])
    ensures Text.ByteLen(Encode(b)) == 26
  {
    var s := Encode(b);
    assert Text.IsAscii(s) by {
      forall i | 0 <= i < |s| ensures s[i] as int < 0x80 { assert IsSymbol(s[i]); }
    }
    Text.AsciiByteLen(s);
  }
}
