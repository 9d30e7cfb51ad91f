/**
 * UTF-8 (RFC 3629, section 3): encoding, and decoding with a replacement character for each maximal
 * subpart of an ill-formed sequence (Unicode Standard, section 3.9).
 */
module Utf8 {
  type Byte = b: int | 0 <= b < 256

  const REPLACEMENT: char := '\U{FFFD}'

  function EncodeChar(c: char): (r: seq<Byte>)
    ensures 1 <= |r| <= 4
  {
    var v := c as int;
    if v < 0x80 then [v]
    else if v < 0x800 then [0xC0 + v / 64, 0x80 + v % 64]
    else if v < 0x10000 then [0xE0 + v / 64 / 64, 0x80 + v / 64 % 64, 0x80 + v % 64]
    else [0xF0 + v / 64 / 64 / 64, 0x80 + v / 64 / 64 % 64, 0x80 + v / 64 % 64, 0x80 + v % 64]
  }

  function Encode(s: string): seq<Byte> { if s == "" then [] else EncodeChar(s[0]) + Encode(s[1..]) }

  /** `Buffer.byteLength`. */
  function ByteLength(s: string): nat { |Encode(s)| }

  /** What a leading byte announces: how many bytes, and the range of the second; length 0 for no leading byte. */
  datatype Lead = Lead(length: nat, low: int, high: int)

  function LeadOf(b: Byte): Lead {
    if b < 0x80 then Lead(1, 0, 0)
    else if b < 0xC2 then Lead(0, 0, 0)
    else if b < 0xE0 then Lead(2, 0x80, 0xBF)
    else if b == 0xE0 then Lead(3, 0xA0, 0xBF)
    else if b == 0xED then Lead(3, 0x80, 0x9F)
    else if b < 0xF0 then Lead(3, 0x80, 0xBF)
    else if b == 0xF0 then Lead(4, 0x90, 0xBF)
    else if b < 0xF4 then Lead(4, 0x80, 0xBF)
    else if b == 0xF4 then Lead(4, 0x80, 0x8F)
    else Lead(0, 0, 0)
  }

  predicate Continues(bytes: seq<Byte>, i: nat) { i < |bytes| && 0x80 <= bytes[i] <= 0xBF }

  /** The well-formed continuation bytes after the first byte, as many as it announces at most. */
  function Continuations(bytes: seq<Byte>, lead: Lead): (k: nat)
    requires bytes != [] && lead.length >= 2
    ensures k < lead.length && k < |bytes|
  {
    if |bytes| < 2 || !(lead.low <= bytes[1] <= lead.high) then 0
    else if lead.length == 2 || !Continues(bytes, 2) then 1
    else if lead.length == 3 || !Continues(bytes, 3) then 2
    else 3
  }

  /** The code point of a complete sequence. */
  function CodePoint(bytes: seq<Byte>, length: nat): int
    requires 2 <= length <= 4 && length <= |bytes|
  {
    if length == 2 then 64 * Bits(bytes[0], 0xC0) + Bits(bytes[1], 0x80)
    else if length == 3 then 64 * (64 * Bits(bytes[0], 0xE0) + Bits(bytes[1], 0x80)) + Bits(bytes[2], 0x80)
    else 64 * (64 * (64 * Bits(bytes[0], 0xF0) + Bits(bytes[1], 0x80)) + Bits(bytes[2], 0x80)) + Bits(bytes[3], 0x80)
  }

  /** The payload of a byte under its mark. */
  function Bits(b: Byte, mark: int): int { b as int - mark }

  lemma CodePointIsScalar(bytes: seq<Byte>)
    requires bytes != [] && LeadOf(bytes[0]).length >= 2
    requires Continuations(bytes, LeadOf(bytes[0])) == LeadOf(bytes[0]).length - 1
    ensures var v := CodePoint(bytes, LeadOf(bytes[0]).length); 0x80 <= v < 0xD800 || 0xE000 <= v < 0x110000
  {
  }

  function Decode(bytes: seq<Byte>): string {
    if bytes == [] then ""
    else
      var lead := LeadOf(bytes[0]);
      if lead.length == 1 then [bytes[0] as char] + Decode(bytes[1..])
      else if lead.length == 0 then [REPLACEMENT] + Decode(bytes[1..])
      else
        var k := Continuations(bytes, lead);
        if k == lead.length - 1 then
          CodePointIsScalar(bytes);
          [CodePoint(bytes, lead.length) as char] + Decode(bytes[lead.length..])
        else [REPLACEMENT] + Decode(bytes[1 + k..])
  }

  // Whole characters.

  /** The encoding announces its own length, has well-formed continuations, and holds the code point. */
  ghost predicate Announces(e: seq<Byte>, v: int) {
    && 1 <= |e| <= 4 && LeadOf(e[0]).length == |e|
    && (|e| == 1 ==> e[0] == v)
    && (|e| >= 2 ==> LeadOf(e[0]).low <= e[1] <= LeadOf(e[0]).high && CodePoint(e, |e|) == v)
    && (|e| >= 3 ==> Continues(e, 2)) && (|e| == 4 ==> Continues(e, 3))
  }

  lemma LeadOfChar(c: char)
    ensures Announces(EncodeChar(c), c as int)
  {
    var v := c as int;
    if v < 0x800 {
    } else if v < 0x10000 {
      ThreeBytes(v);
    } else {
      FourBytes(v);
    }
  }

  lemma ThreeBytes(v: int)
    requires 0x800 <= v < 0x10000 && !(0xD800 <= v < 0xE000)
    ensures Announces([0xE0 + v / 64 / 64, 0x80 + v / 64 % 64, 0x80 + v % 64], v)
  {
    var q := v / 64;
    assert v == 64 * q + v % 64 && q == 64 * (q / 64) + q % 64;
  }

  lemma FourBytes(v: int)
    requires 0x10000 <= v < 0x110000
    ensures Announces([0xF0 + v / 64 / 64 / 64, 0x80 + v / 64 / 64 % 64, 0x80 + v / 64 % 64, 0x80 + v % 64], v)
  {
    var q := v / 64;
    var p := q / 64;
    assert v == 64 * q + v % 64 && q == 64 * p + q % 64 && p == 64 * (p / 64) + p % 64;
  }

  lemma DecodeChar(c: char, tail: seq<Byte>)
    ensures Decode(EncodeChar(c) + tail) == [c] + Decode(tail)
  {
    LeadOfChar(c);
    var e := EncodeChar(c);
    hide EncodeChar, LeadOf;
    var bytes := e + tail;
    assert bytes[..|e|] == e && bytes[|e|..] == tail && bytes[0] == e[0];
    if |e| >= 2 { assert CodePoint(bytes, |e|) == CodePoint(e, |e|); }
  }

  /** Decoding undoes encoding. */
  lemma {:induction false} DecodeEncode(s: string)
    ensures Decode(Encode(s)) == s
  {
    hide EncodeChar, Decode;
    if s == "" {
      DecodeNothing();
    } else {
      DecodeChar(s[0], Encode(s[1..]));
      DecodeEncode(s[1..]);
    }
  }

  lemma DecodeNothing()
    ensures Decode([]) == ""
  {
  }

  // Cut texts.

  /** A character cut short decodes to one replacement character. */
  lemma DecodeCutChar(c: char, n: nat)
    requires 0 < n < |EncodeChar(c)|
    ensures Decode(EncodeChar(c)[..n]) == [REPLACEMENT]
  {
    LeadOfChar(c);
    var e := EncodeChar(c);
    hide EncodeChar, LeadOf, CodePoint;
    var bytes := e[..n];
    assert bytes[0] == e[0] && Continuations(bytes, LeadOf(e[0])) == n - 1;
    assert bytes[n..] == [];
    DecodeNothing();
  }

  /** How many whole characters of `s` fit in `n` bytes. */
  function WholeChars(s: string, n: nat): (k: nat)
    ensures k <= |s|
  {
    if s == "" || n < |EncodeChar(s[0])| then 0 else 1 + WholeChars(s[1..], n - |EncodeChar(s[0])|)
  }

  /** `k` is the number of whole characters in the first `n` bytes. */
  ghost predicate Whole(s: string, n: nat, k: nat) {
    k <= |s| && ByteLength(s[..k]) <= n && (k < |s| ==> n < ByteLength(s[..k + 1]))
  }

  /** The whole characters before the cut, and a replacement character for one that was cut. */
  ghost predicate CutsTo(s: string, n: nat, k: nat, cut: string) {
    Whole(s, n, k) && cut == s[..k] + if ByteLength(s[..k]) == n then "" else [REPLACEMENT]
  }

  /**
   * Cutting valid UTF-8 anywhere and decoding it gives exactly the whole characters before the cut, and
   * one replacement character if the cut was inside a character; the text grows by at most two bytes.
   */
  lemma {:induction false} CutText(s: string, n: nat)
    requires n <= |Encode(s)|
    ensures var cut := Decode(Encode(s)[..n]);
            && CutsTo(s, n, WholeChars(s, n), cut)
            && ByteLength(cut) <= n + 2 && (n == |Encode(s)| ==> cut == s)
  {
    hide EncodeChar, Decode;
    if s == "" {
      DecodeNothing();
    } else {
      var e, rest := EncodeChar(s[0]), Encode(s[1..]);
      if n >= |e| {
        assert (e + rest)[..n] == e + rest[..n - |e|];
        DecodeChar(s[0], rest[..n - |e|]);
        CutText(s[1..], n - |e|);
        OneMore(s, n, WholeChars(s[1..], n - |e|), Decode(rest[..n - |e|]));
      } else {
        assert (e + rest)[..n] == e[..n];
        CutHead(s, n);
      }
    }
  }

  /** The first character put back in front of a cut text. */
  lemma OneMore(s: string, n: nat, k: nat, cut: string)
    requires s != "" && k <= |s| - 1 && n >= |EncodeChar(s[0])| && CutsTo(s[1..], n - |EncodeChar(s[0])|, k, cut)
    ensures CutsTo(s, n, k + 1, [s[0]] + cut)
    ensures cut == s[1..] ==> [s[0]] + cut == s
    ensures ByteLength([s[0]] + cut) == |EncodeChar(s[0])| + ByteLength(cut)
  {
    hide EncodeChar;
    assert ([s[0]] + cut)[1..] == cut;
    assert s[..k + 1][1..] == s[1..][..k];
    if k + 1 < |s| { assert s[..k + 2][1..] == s[1..][..k + 1]; }
  }

  lemma CutHead(s: string, n: nat)
    requires s != "" && n < |EncodeChar(s[0])|
    ensures var cut := Decode(EncodeChar(s[0])[..n]); CutsTo(s, n, 0, cut) && ByteLength(cut) <= n + 2
  {
    assert s[..0] == "" && s[..1][0] == s[0] && s[..1][1..] == "";
    if n == 0 {
      assert EncodeChar(s[0])[..0] == [];
      DecodeNothing();
    } else {
      DecodeCutChar(s[0], n);
      assert [REPLACEMENT][1..] == "";
      assert Encode([REPLACEMENT]) == EncodeChar(REPLACEMENT) + Encode("");
    }
  }

  lemma {:induction false} EncodeAppend(a: string, b: string)
    ensures Encode(a + b) == Encode(a) + Encode(b)
  {
    hide EncodeChar;
    if a == "" {
      assert a + b == b;
    } else {
      assert (a + b)[1..] == a[1..] + b;
      EncodeAppend(a[1..], b);
    }
  }

  lemma {:induction false} AsciiLength(s: string)
    requires forall c <- s :: c < '\U{0080}'
    ensures ByteLength(s) == |s|
  {
    if s != "" {
      assert s[0] in s && |EncodeChar(s[0])| == 1;
      assert forall c <- s[1..] :: c in s;
      AsciiLength(s[1..]);
    }
  }
}
