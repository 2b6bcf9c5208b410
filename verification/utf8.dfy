/**
 * `bytes.decode()` with its default codec: strict UTF-8 as defined in
 * section 4 of RFC 3629. A byte string is well formed when it is a
 * sequence of UTF8-char productions; decoding anything else raises
 * `UnicodeDecodeError`, which `Decode` returns as `None`.
 *
 * `Encode` is the inverse direction, used here as the independent
 * reference the decoder is proved against.
 */
module Utf8Codec {
  import opened Results
  import opened Chunks

  /** UTF8-tail: %x80-BF. */
  predicate Cont(b: byte) {
    0x80 <= b <= 0xBF
  }

  /**
   * The second byte a lead byte allows: the narrowed ranges after E0, ED,
   * F0 and F4 rule out overlong forms, surrogates and code points past
   * U+10FFFF; every other lead byte takes any UTF8-tail.
   */
  predicate SecondOk(lead: byte, b: byte) {
    if lead == 0xE0 then 0xA0 <= b <= 0xBF
    else if lead == 0xED then 0x80 <= b <= 0x9F
    else if lead == 0xF0 then 0x90 <= b <= 0xBF
    else if lead == 0xF4 then 0x80 <= b <= 0x8F
    else Cont(b)
  }

  /**
   * The length of the UTF8-char the bytes start with, or 0 when they do not
   * start with one (empty input, a stray continuation byte, C0, C1, F5-FF,
   * a bad second byte or a truncated sequence).
   */
  function LeadLength(c: Chunk): (k: nat)
    ensures k <= 4 && k <= |c|
  {
    if |c| == 0 then 0
    else if c[0] <= 0x7F then 1
    else if 0xC2 <= c[0] <= 0xDF then (if 2 <= |c| && Cont(c[1]) then 2 else 0)
    else if 0xE0 <= c[0] <= 0xEF then (if 3 <= |c| && SecondOk(c[0], c[1]) && Cont(c[2]) then 3 else 0)
    else if 0xF0 <= c[0] <= 0xF4 then (if 4 <= |c| && SecondOk(c[0], c[1]) && Cont(c[2]) && Cont(c[3]) then 4 else 0)
    else 0
  }

  /** UTF8-octets: the bytes are a sequence of complete UTF8-chars. */
  predicate Utf8(c: Chunk)
    decreases |c|
  {
    |c| == 0 || (LeadLength(c) > 0 && Utf8(c[LeadLength(c)..]))
  }

  /** Whether a code point is a Unicode scalar value, the values a `char` holds. */
  predicate Scalar(v: int) {
    (0 <= v < 0xD800) || (0xE000 <= v < 0x11_0000)
  }

  /**
   * The code point of the leading UTF8-char. The sequence length matches
   * the value: one byte below U+0080, two below U+0800, three below
   * U+10000, four above, so no value has two encodings.
   */
  function CodeValue(c: Chunk): (v: int)
    requires LeadLength(c) > 0
    ensures Scalar(v)
    ensures LeadLength(c) == 1 <==> v < 0x80
    ensures LeadLength(c) == 2 <==> 0x80 <= v < 0x800
    ensures LeadLength(c) == 3 <==> 0x800 <= v < 0x1_0000
    ensures LeadLength(c) == 4 <==> 0x1_0000 <= v
  {
    var k := LeadLength(c);
    var b0 := c[0] as int;
    if k == 1 then b0
    else if k == 2 then (b0 - 0xC0) * 64 + (c[1] as int - 0x80)
    else if k == 3 then (b0 - 0xE0) * 4096 + (c[1] as int - 0x80) * 64 + (c[2] as int - 0x80)
    else (b0 - 0xF0) * 262144 + (c[1] as int - 0x80) * 4096 + (c[2] as int - 0x80) * 64 + (c[3] as int - 0x80)
  }

  /**
   * `bytes.decode()`: it succeeds exactly on well-formed UTF-8, and yields
   * at most one character per byte.
   */
  function Decode(c: Chunk): (r: Option<string>)
    ensures r.Some? <==> Utf8(c)
    ensures r.Some? ==> |r.value| <= |c|
    decreases |c|
  {
    if |c| == 0 then Some([])
    else
      var k := LeadLength(c);
      if k == 0 then None
      else match Decode(c[k..])
        case None => None
        case Some(rest) => Some([CodeValue(c) as char] + rest)
  }

  /** The UTF-8 encoding of one character, as `str.encode()` gives it. */
  function EncodeChar(ch: char): (e: Chunk)
    ensures 1 <= |e| <= 4
  {
    var v := ch as int;
    var v1 := v / 64;
    var v2 := v1 / 64;
    var v3 := v2 / 64;
    if v < 0x80 then [v as byte]
    else if v < 0x800 then [(0xC0 + v1) as byte, (0x80 + v % 64) as byte]
    else if v < 0x1_0000 then [(0xE0 + v2) as byte, (0x80 + v1 % 64) as byte, (0x80 + v % 64) as byte]
    else [(0xF0 + v3) as byte, (0x80 + v2 % 64) as byte, (0x80 + v1 % 64) as byte, (0x80 + v % 64) as byte]
  }

  /** `str.encode()`. */
  function Encode(s: string): Chunk
  {
    if |s| == 0 then [] else EncodeChar(s[0]) + Encode(s[1..])
  }

  // ---------------------------------------------------------------------
  // Properties.
  // ---------------------------------------------------------------------

  lemma DivMod64(q: int, r: int)
    requires 0 <= r < 64
    ensures (q * 64 + r) / 64 == q
    ensures (q * 64 + r) % 64 == r
  {
  }

  /** An encoded character is one well-formed UTF8-char that decodes to it, whatever follows. */
  lemma EncodeCharLeads(ch: char, rest: Chunk)
    ensures LeadLength(EncodeChar(ch) + rest) == |EncodeChar(ch)|
    ensures CodeValue(EncodeChar(ch) + rest) == ch as int
  {
    var v := ch as int;
    var v1 := v / 64;
    var v2 := v1 / 64;
    var v3 := v2 / 64;
    assert v == v1 * 64 + v % 64;
    assert v1 == v2 * 64 + v1 % 64;
    assert v2 == v3 * 64 + v2 % 64;
  }

  /** Decoding inverts encoding: the encoding of any text is well formed and decodes back to it. */
  lemma {:induction false} DecodeEncode(s: string)
    ensures Decode(Encode(s)) == Some(s)
    ensures Utf8(Encode(s))
  {
    if |s| > 0 {
      var e := EncodeChar(s[0]);
      var rest := Encode(s[1..]);
      EncodeCharLeads(s[0], rest);
      assert (e + rest)[|e|..] == rest;
      DecodeEncode(s[1..]);
      assert [s[0]] + s[1..] == s;
    }
  }

  /** The leading UTF8-char is the encoding of the character it decodes to. */
  lemma CodeValueEncodes(c: Chunk)
    requires LeadLength(c) > 0
    ensures EncodeChar(CodeValue(c) as char) == c[..LeadLength(c)]
  {
    var k := LeadLength(c);
    var v := CodeValue(c);
    if k == 2 {
      DivMod64(c[0] as int - 0xC0, c[1] as int - 0x80);
    } else if k == 3 {
      var hi := (c[0] as int - 0xE0) * 64 + (c[1] as int - 0x80);
      DivMod64(hi, c[2] as int - 0x80);
      DivMod64(c[0] as int - 0xE0, c[1] as int - 0x80);
    } else if k == 4 {
      var top := (c[0] as int - 0xF0) * 64 + (c[1] as int - 0x80);
      var hi := top * 64 + (c[2] as int - 0x80);
      DivMod64(hi, c[3] as int - 0x80);
      DivMod64(top, c[2] as int - 0x80);
      DivMod64(c[0] as int - 0xF0, c[1] as int - 0x80);
    }
  }

  /** One decoding step: the first character is the leading UTF8-char's code point. */
  lemma DecodeCons(c: Chunk)
    requires |c| > 0 && LeadLength(c) > 0 && Decode(c[LeadLength(c)..]).Some?
    ensures Decode(c) == Some([CodeValue(c) as char] + Decode(c[LeadLength(c)..]).value)
  {
  }

  /** What the decoder returns encodes back to the input: no byte is dropped or replaced. */
  lemma {:induction false} EncodeDecode(c: Chunk)
    requires Decode(c).Some?
    ensures Encode(Decode(c).value) == c
    decreases |c|
  {
    if |c| > 0 {
      var k := LeadLength(c);
      var tail := c[k..];
      var x := CodeValue(c) as char;
      var t := Decode(tail).value;
      assert Decode(c).value == [x] + t by {
        DecodeCons(c);
      }
      assert EncodeChar(x) == c[..k] by {
        CodeValueEncodes(c);
      }
      EncodeDecode(tail);
      Reassemble(c, k, x, t);
    }
  }

  lemma Reassemble(c: Chunk, k: nat, x: char, t: string)
    requires k <= |c|
    requires EncodeChar(x) == c[..k] && Encode(t) == c[k..]
    ensures Encode([x] + t) == c
  {
    assert ([x] + t)[1..] == t;
    assert c == c[..k] + c[k..];
  }

  /** ASCII decodes byte for byte, so character offsets are byte offsets. */
  lemma {:induction false} DecodeAscii(c: Chunk)
    requires forall i :: 0 <= i < |c| ==> c[i] < 0x80
    ensures Decode(c) == Some(BytesAsText(c))
    decreases |c|
  {
    var text := BytesAsText(c);
    if |c| > 0 {
      DecodeAscii(c[1..]);
      assert text == [(c[0] as int) as char] + text[1..];
      assert text[1..] == BytesAsText(c[1..]);
    }
  }

  /** A lone byte at or above 0x80 is not UTF-8, so `bytes([b]).decode()` raises. */
  lemma HighByteInvalid(b: byte)
    requires 0x80 <= b
    ensures !Utf8([b])
    ensures Decode([b]) == None
  {
  }
}
