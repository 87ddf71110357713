/** UTF-8 as section 3 of RFC 3629 defines it, and the byte-budget prefix of the log reader. */
module Utf8 {

  type Byte = x: int | 0 <= x < 256

  /** Octets needed for one character. */
  function CharSize(c: char): (n: nat)
    ensures 1 <= n <= 4
  {
    if c as int < 0x80 then 1
    else if c as int < 0x800 then 2
    else if c as int < 0x1_0000 then 3
    else 4
  }

  function EncodeChar(c: char): (b: seq<Byte>)
    ensures |b| == CharSize(c)
  {
    var x := c as int;
    if x < 0x80 then [x]
    else if x < 0x800 then [0xC0 + x / 64, 0x80 + x % 64]
    else if x < 0x1_0000 then [0xE0 + x / 4096, 0x80 + x / 64 % 64, 0x80 + x % 64]
    else [0xF0 + x / 0x4_0000, 0x80 + x / 4096 % 64, 0x80 + x / 64 % 64, 0x80 + x % 64]
  }

  function Encode(s: string): seq<Byte> {
    if s == [] then [] else EncodeChar(s[0]) + Encode(s[1..])
  }

  /** The UTF-8 size of a text, without building its bytes. */
  function Size(s: string): nat {
    if s == [] then 0 else CharSize(s[0]) + Size(s[1..])
  }

  /** Sequence length announced by a leading octet; 0 when no sequence may start with it. */
  function LeadSize(b: Byte): (n: nat)
    ensures n <= 4
  {
    if b < 0x80 then 1
    else if 0xC2 <= b <= 0xDF then 2
    else if 0xE0 <= b <= 0xEF then 3
    else if 0xF0 <= b <= 0xF4 then 4
    else 0
  }

  predicate IsTail(b: Byte) {
    0x80 <= b <= 0xBF
  }

  /** The UTF8-2, UTF8-3 and UTF8-4 productions of section 4 of RFC 3629. */
  predicate IsSequence(b: seq<Byte>)
    requires |b| >= 1
  {
    && |b| == LeadSize(b[0])
    && (forall i :: 1 <= i < |b| ==> IsTail(b[i]))
    && (b[0] == 0xE0 ==> b[1] >= 0xA0)
    && (b[0] == 0xED ==> b[1] <= 0x9F)
    && (b[0] == 0xF0 ==> b[1] >= 0x90)
    && (b[0] == 0xF4 ==> b[1] <= 0x8F)
  }

  function SequenceValue(b: seq<Byte>): (x: int)
    requires |b| >= 1 && IsSequence(b)
    ensures 0 <= x < 0xD800 || 0xE000 <= x < 0x11_0000
  {
    if |b| == 1 then b[0]
    else if |b| == 2 then (b[0] as int - 0xC0) * 64 + (b[1] as int - 0x80)
    else if |b| == 3 then (b[0] as int - 0xE0) * 4096 + (b[1] as int - 0x80) * 64 + (b[2] as int - 0x80)
    else (b[0] as int - 0xF0) * 0x4_0000 + (b[1] as int - 0x80) * 4096 + (b[2] as int - 0x80) * 64 + (b[3] as int - 0x80)
  }

  /** Decoding that drops every octet which starts no well-formed sequence. */
  function DecodeIgnoring(b: seq<Byte>): string
    decreases |b|
  {
    if b == [] then []
    else
      var n := LeadSize(b[0]);
      if 0 < n <= |b| && IsSequence(b[..n])
      then [SequenceValue(b[..n]) as char] + DecodeIgnoring(b[n..])
      else DecodeIgnoring(b[1..])
  }

  lemma {:induction false} EncodedLength(s: string)
    ensures |Encode(s)| == Size(s)
  {
    if s != [] { EncodedLength(s[1..]); }
  }

  lemma {:induction false} SizeAppend(s: string, t: string)
    ensures Size(s + t) == Size(s) + Size(t)
  {
    if s == [] {
      assert s + t == t;
    } else {
      assert (s + t)[1..] == s[1..] + t;
      SizeAppend(s[1..], t);
    }
  }

  lemma SizeOfPrefix(s: string, k: nat)
    requires k < |s|
    ensures Size(s[..k + 1]) == Size(s[..k]) + CharSize(s[k])
  {
    assert s[..k + 1] == s[..k] + [s[k]];
    SizeAppend(s[..k], [s[k]]);
  }

  lemma {:induction false} SizeBounds(s: string)
    ensures |s| <= Size(s) <= 4 * |s|
  {
    if s != [] { SizeBounds(s[1..]); }
  }

  lemma EncodedCharIsSequence(c: char)
    ensures IsSequence(EncodeChar(c)) && SequenceValue(EncodeChar(c)) == c as int
  {
    DigitsBase64(c as int);
  }

  lemma DigitsBase64(x: nat)
    ensures x == x / 64 * 64 + x % 64
    ensures x == x / 4096 * 4096 + x / 64 % 64 * 64 + x % 64
    ensures x == x / 0x4_0000 * 0x4_0000 + x / 4096 % 64 * 4096 + x / 64 % 64 * 64 + x % 64
  {
    var y := x / 64;
    var z := y / 64;
    assert x / 4096 == z && x / 0x4_0000 == z / 64;
    assert y == z * 64 + y % 64 && z == z / 64 * 64 + z % 64;
  }

  lemma DecodeFirstChar(c: char, rest: seq<Byte>)
    ensures DecodeIgnoring(EncodeChar(c) + rest) == [c] + DecodeIgnoring(rest)
  {
    EncodedCharIsSequence(c);
    var b := EncodeChar(c) + rest;
    var n := CharSize(c);
    assert b[..n] == EncodeChar(c) && b[n..] == rest && b[0] == EncodeChar(c)[0];
  }

  /** Tail octets alone, and a leading octet with too few of them, decode to nothing. */
  lemma {:induction false} TailsDecodeToNothing(b: seq<Byte>)
    requires forall i :: 0 <= i < |b| ==> IsTail(b[i])
    ensures DecodeIgnoring(b) == []
  {
    if b != [] { TailsDecodeToNothing(b[1..]); }
  }

  lemma TruncatedCharDecodesToNothing(c: char, k: nat)
    requires k < CharSize(c)
    ensures DecodeIgnoring(EncodeChar(c)[..k]) == []
  {
    EncodedCharIsSequence(c);
    var b := EncodeChar(c)[..k];
    if k > 0 {
      assert forall i :: 0 <= i < |b[1..]| ==> b[1..][i] == EncodeChar(c)[i + 1];
      TailsDecodeToNothing(b[1..]);
    }
  }

  /** Length of the longest prefix of `s` whose encoding fits `n` octets. */
  function Fit(s: string, n: nat): (k: nat)
    ensures k <= |s|
  {
    if s == [] || CharSize(s[0]) > n then 0 else 1 + Fit(s[1..], n - CharSize(s[0]))
  }

  lemma {:induction false} FitIsLongest(s: string, n: nat)
    ensures Size(s[..Fit(s, n)]) <= n
    ensures Fit(s, n) < |s| ==> n < Size(s[..Fit(s, n) + 1])
  {
    if s != [] && CharSize(s[0]) <= n {
      var m := n - CharSize(s[0]);
      FitIsLongest(s[1..], m);
      var k := Fit(s[1..], m);
      assert s[..k + 1] == [s[0]] + s[1..][..k];
      assert Fit(s, n) < |s| ==> s[..k + 2] == [s[0]] + s[1..][..k + 1];
    } else if s != [] {
      assert s[..1] == [s[0]];
    }
  }

  /** Cutting an encoding anywhere and decoding it loses only the character that was cut. */
  lemma {:induction false} DecodeOfCutEncoding(s: string, n: nat)
    requires n <= |Encode(s)|
    ensures DecodeIgnoring(Encode(s)[..n]) == s[..Fit(s, n)]
  {
    if s != [] {
      var head, rest := EncodeChar(s[0]), Encode(s[1..]);
      if CharSize(s[0]) <= n {
        var m := n - CharSize(s[0]);
        DecodeOfCutEncoding(s[1..], m);
        assert Encode(s)[..n] == head + rest[..m];
        DecodeFirstChar(s[0], rest[..m]);
        assert s[..Fit(s, n)] == [s[0]] + s[1..][..Fit(s[1..], m)];
      } else {
        assert Encode(s)[..n] == head[..n];
        TruncatedCharDecodesToNothing(s[0], n);
      }
    }
  }

  lemma RoundTrip(s: string)
    ensures DecodeIgnoring(Encode(s)) == s
  {
    var n := |Encode(s)|;
    DecodeOfCutEncoding(s, n);
    assert Encode(s)[..n] == Encode(s);
    EncodedLength(s);
    FitIsLongest(s, n);
    if Fit(s, n) < |s| {
      var k := Fit(s, n) + 1;
      assert s == s[..k] + s[k..];
      SizeAppend(s[..k], s[k..]);
    }
    assert s[..|s|] == s;
  }

  /** The longest prefix that fits a byte budget, obtained by cutting the encoded bytes. */
  function Prefix(value: string, maxBytes: int): (r: string)
    ensures r <= value
    ensures r == [] || Size(r) <= maxBytes
    ensures r == value || maxBytes < Size(value[..|r| + 1])
  {
    if maxBytes <= 0 then
      assert value != [] ==> value[..1] == [value[0]];
      []
    else
      var encoded := Encode(value);
      EncodedLength(value);
      if |encoded| <= maxBytes then value
      else
        DecodeOfCutEncoding(value, maxBytes);
        FitIsLongest(value, maxBytes);
        DecodeIgnoring(encoded[..maxBytes])
  }

  lemma PrefixKeepsFitting(value: string, maxBytes: int)
    requires Size(value) <= maxBytes
    ensures Prefix(value, maxBytes) == value
  {
    EncodedLength(value);
    SizeBounds(value);
  }

  lemma FirstOfPrefix(r: string, value: string)
    requires r <= value
    ensures r != "" ==> r[0] == value[0] && CharSize(value[0]) <= Size(r)
  {
  }

  lemma PrefixDropsWide(value: string, maxBytes: int)
    requires value != "" && maxBytes < CharSize(value[0])
    ensures Prefix(value, maxBytes) == ""
  {
    FirstOfPrefix(Prefix(value, maxBytes), value);
  }
}
