/**
 * `hexdump(src, length)`: the input is cut into slices of `length`
 * characters and each slice becomes one line
 *
 *     <offset, lower-case hex, at least 4 digits> <hex column> <printable column>
 *
 * where the hex column holds two upper-case digits per character separated
 * by single spaces, left-aligned in a column of `3 * length` characters,
 * and the printable column is the slice passed through HEX_FILTER.
 *
 * Besides the layout lemmas, `Undump` reads a dump back (offsets and hex
 * columns), and `UndumpHexDump` proves that it recovers the input.
 */
module HexDump {
  import opened Results
  import opened HexFormat
  import opened HexFilter
  import opened Chunks
  import opened Utf8Codec

  function Min(a: nat, b: nat): nat { if a <= b then a else b }

  /**
   * The exceptions `hexdump` can raise: `UnicodeDecodeError` from decoding
   * bytes that are not UTF-8, and the `ValueError` of `range(0, len(src), 0)`.
   */
  datatype DumpError = DecodeFailure | ZeroStep

  // ---------------------------------------------------------------------
  // The `for i in range(start, stop, step)` loop that collects the lines.
  // ---------------------------------------------------------------------

  /** `[body(i) for i in range(start, stop, step)]` for a positive step. */
  function Loop(start: nat, stop: nat, step: nat, body: nat -> string): seq<string>
    requires 1 <= step
    decreases stop - start
  {
    if start >= stop then [] else [body(start)] + Loop(start + step, stop, step, body)
  }

  /** The number of blocks of b characters needed to cover a characters. */
  function Blocks(a: int, b: nat): nat
    requires 1 <= b
    decreases a
  {
    if a <= 0 then 0 else 1 + Blocks(a - b, b)
  }

  lemma MulSucc(m: int, b: nat)
    ensures (m + 1) * b == m * b + b
  {
  }

  lemma MulCancel(x: int, y: int, b: nat)
    requires 1 <= b
    requires x * b < y * b
    ensures x < y
  {
  }

  /** Blocks(a, b) is ceil(a / b): zero only for a == 0, and (n - 1) * b < a <= n * b otherwise. */
  lemma {:induction false} BlocksBounds(a: nat, b: nat)
    requires 1 <= b
    ensures a == 0 <==> Blocks(a, b) == 0
    ensures 0 < a ==> (Blocks(a, b) - 1) * b < a <= Blocks(a, b) * b
    decreases a
  {
    if a > b {
      BlocksBounds(a - b, b);
      var m := Blocks(a - b, b);
      MulSucc(m - 1, b);
      MulSucc(m, b);
    }
  }

  /** q is ceil(a / b) when (q - 1) * b < a <= q * b. */
  lemma CeilingDiv(a: nat, b: nat, q: nat)
    requires 1 <= b
    requires 1 <= q
    requires (q - 1) * b < a <= q * b
    ensures q == (a + b - 1) / b
  {
    var d := (a + b - 1) / b;
    var m := (a + b - 1) % b;
    assert a + b - 1 == d * b + m && 0 <= m < b;
    MulSucc(q - 1, b);
    MulSucc(q, b);
    MulCancel(q - 1, d, b);
    MulCancel(d, q + 1, b);
  }

  /** The loop runs once per started block of `step` positions. */
  lemma {:induction false} LoopCount(start: nat, stop: nat, step: nat, body: nat -> string)
    requires 1 <= step
    ensures |Loop(start, stop, step, body)| == Blocks(stop - start, step)
    decreases stop - start
  {
    if start < stop {
      LoopCount(start + step, stop, step, body);
    }
  }

  /** After its first pass the loop continues from start + step. */
  lemma LoopTail(start: nat, stop: nat, step: nat, body: nat -> string)
    requires 1 <= step
    requires start < stop
    ensures Loop(start, stop, step, body) == [body(start)] + Loop(start + step, stop, step, body)
  {
  }

  /** Pass k of the loop runs the body at start + k * step, which is below stop. */
  lemma {:induction false} LoopAt(start: nat, stop: nat, step: nat, body: nat -> string, k: nat)
    requires 1 <= step
    requires k < |Loop(start, stop, step, body)|
    ensures start + k * step < stop
    ensures Loop(start, stop, step, body)[k] == body(start + k * step)
    decreases k
  {
    if k > 0 {
      LoopAt(start + step, stop, step, body, k - 1);
      MulSucc(k - 1, step);
    }
  }

  // ---------------------------------------------------------------------
  // The columns of one line.
  // ---------------------------------------------------------------------

  /** `f"{ord(c):02X}"`. */
  function HexPair(c: char): string
  {
    Format(c as int, 2, true)
  }

  /** Below 256 the pair is exactly two upper-case digits that read back as the code point. */
  lemma HexPairLatin1(c: char)
    requires c as int < 256
    ensures |HexPair(c)| == 2
    ensures forall i :: 0 <= i < 2 ==> IsDigitOf(HexPair(c)[i], true)
    ensures HexValue(HexPair(c)) == c as int
  {
    FormatWidth(c as int, 2, true);
    FormatRoundTrip(c as int, 2, true);
  }

  /** `" ".join(f"{ord(c):02X}" for c in word)`. */
  function JoinHex(word: string): string
  {
    if |word| == 0 then ""
    else if |word| == 1 then HexPair(word[0])
    else HexPair(word[0]) + " " + JoinHex(word[1..])
  }

  /**
   * For characters below 256 the joined hex is 3 * n - 1 characters long
   * for n >= 1 characters; pair j sits at 3*j, and a single space separates
   * consecutive pairs.
   */
  lemma {:induction false} JoinHexPairs(word: string)
    requires Latin1(word)
    ensures |word| == 0 ==> |JoinHex(word)| == 0
    ensures |word| > 0 ==> |JoinHex(word)| == 3 * |word| - 1
    ensures forall j :: 0 <= j < |word| ==> JoinHex(word)[3 * j..3 * j + 2] == HexPair(word[j])
    ensures forall j :: 0 <= j < |word| - 1 ==> JoinHex(word)[3 * j + 2] == ' '
  {
    if |word| == 1 {
      HexPairLatin1(word[0]);
    } else if |word| > 1 {
      var rest := word[1..];
      JoinHexPairs(rest);
      HexPairLatin1(word[0]);
      var s := JoinHex(word);
      var t := JoinHex(rest);
      assert s == HexPair(word[0]) + " " + t;
      forall j | 1 <= j < |word|
        ensures s[3 * j..3 * j + 2] == HexPair(word[j])
      {
        assert s[3 * j..3 * j + 2] == t[3 * (j - 1)..3 * (j - 1) + 2];
        assert rest[j - 1] == word[j];
      }
      forall j | 1 <= j < |word| - 1
        ensures s[3 * j + 2] == ' '
      {
        assert s[3 * j + 2] == t[3 * (j - 1) + 2];
      }
      assert s[0..2] == HexPair(word[0]);
    }
  }

  /** `f"{s:<{width}}"`: s left-aligned, padded with spaces up to `width`, never cut. */
  function PadRight(s: string, width: nat): (r: string)
    ensures |r| == Max(width, |s|)
    ensures r[..|s|] == s
    ensures forall p :: |s| <= p < |r| ==> r[p] == ' '
  {
    if |s| >= width then s else s + Fill(' ', width - |s|)
  }

  /** The hex column of one line, `hexwidth = length * 3` characters wide. */
  function HexField(word: string, length: nat): string
  {
    PadRight(JoinHex(word), 3 * length)
  }

  /**
   * For a slice of at most `length` characters below 256 the hex column is
   * exactly `3 * length` wide, the final short line included: pair j at
   * 3*j, single spaces between pairs and spaces up to the end.
   */
  lemma HexFieldLayout(word: string, length: nat)
    requires Latin1(word)
    requires |word| <= length
    ensures |HexField(word, length)| == 3 * length
    ensures forall j :: 0 <= j < |word| ==> HexField(word, length)[3 * j..3 * j + 2] == HexPair(word[j])
    ensures forall j :: 0 <= j < |word| - 1 ==> HexField(word, length)[3 * j + 2] == ' '
    ensures forall p :: 0 <= p < 3 * length && 3 * |word| - 1 <= p ==> HexField(word, length)[p] == ' '
  {
    var s := JoinHex(word);
    var f := HexField(word, length);
    JoinHexPairs(word);
    forall j | 0 <= j < |word|
      ensures f[3 * j..3 * j + 2] == HexPair(word[j])
    {
      assert f[3 * j..3 * j + 2] == s[3 * j..3 * j + 2];
    }
    forall j | 0 <= j < |word| - 1
      ensures f[3 * j + 2] == ' '
    {
      assert f[3 * j + 2] == s[3 * j + 2];
    }
  }

  /** Reads `n` characters back from a hex column: the pair at 3*j is character j. */
  function DecodeHexField(field: string, n: nat): (w: string)
    requires 3 * n <= |field| + 1
    ensures |w| == n
  {
    seq(n, j requires 0 <= j < n =>
      var pair := field[3 * j..3 * j + 2];
      assert Pow16(|pair|) == 256;
      HexValue(pair) as char)
  }

  /** The hex column determines the slice it was made from. */
  lemma DecodeHexFieldRoundTrip(word: string, length: nat)
    requires Latin1(word)
    requires |word| <= length
    ensures DecodeHexField(HexField(word, length), |word|) == word
  {
    HexFieldLayout(word, length);
    var w := DecodeHexField(HexField(word, length), |word|);
    forall j | 0 <= j < |word|
      ensures w[j] == word[j]
    {
      HexPairLatin1(word[j]);
    }
  }

  /** One output line: `f"{i:04x} {hexa:<{hexwidth}} {printable}"`. */
  function FormatLine(offset: nat, word: string, length: nat): string
  {
    Format(offset, 4, false) + " " + HexField(word, length) + " " + Translate(word)
  }

  /**
   * The columns of a line: an offset of at least four lower-case digits that
   * reads back as `offset` (exactly four below 0x10000), a space, the hex
   * column of `3 * length` characters, a space, and the printable column,
   * which is as long as the slice.
   */
  lemma LineLayout(offset: nat, word: string, length: nat)
    requires Latin1(word)
    requires |word| <= length
    ensures var line := FormatLine(offset, word, length);
            var o := |Format(offset, 4, false)|;
            && 4 <= o
            && (offset < 0x10000 ==> o == 4)
            && |line| == o + 3 * length + 2 + |word|
            && line[..o] == Format(offset, 4, false)
            && HexValue(line[..o]) == offset
            && (forall p :: 0 <= p < o ==> IsDigitOf(line[p], false))
            && line[o] == ' '
            && line[o + 1..o + 1 + 3 * length] == HexField(word, length)
            && line[o + 1 + 3 * length] == ' '
            && line[o + 2 + 3 * length..] == Translate(word)
  {
    var off := Format(offset, 4, false);
    var hex := HexField(word, length);
    assert |hex| == 3 * length by {
      HexFieldLayout(word, length);
    }
    assert HexValue(off) == offset by {
      FormatRoundTrip(offset, 4, false);
    }
    assert 4 <= |off| && (offset < 0x10000 ==> |off| == 4) by {
      OffsetWidth(offset);
    }
    Columns(off, hex, Translate(word));
  }

  /** Where the columns of `a + " " + b + " " + c` sit. */
  lemma Columns(a: string, b: string, c: string)
    ensures var line := a + " " + b + " " + c;
            && |line| == |a| + |b| + 2 + |c|
            && line[..|a|] == a
            && (forall p :: 0 <= p < |a| ==> line[p] == a[p])
            && line[|a|] == ' '
            && line[|a| + 1..|a| + 1 + |b|] == b
            && line[|a| + 1 + |b|] == ' '
            && line[|a| + 2 + |b|..] == c
  {
    var line := a + " " + b + " " + c;
    assert line[..|a|] == a;
    assert line[|a| + 1..|a| + 1 + |b|] == b;
    assert line[|a| + 2 + |b|..] == c;
  }

  /**
   * `f"{i:04x}"` has exactly the width Python gives it: four digits, or
   * the least number of digits that holds the offset when it needs more.
   */
  lemma OffsetWidth(offset: nat)
    ensures var o := |Format(offset, 4, false)|;
            && 4 <= o
            && (offset < 0x10000 <==> o == 4)
            && offset < Pow16(o)
            && (o > 4 ==> Pow16(o - 1) <= offset)
  {
    FormatExactWidth(offset, 4, false);
    assert Pow16(4) == 0x10000;
    if offset < 0x10000 {
      FormatWidth(offset, 4, false);
    }
  }

  // ---------------------------------------------------------------------
  // The dump.
  // ---------------------------------------------------------------------

  /** `src[offset : offset + length]`, with Python's clamping at the end of the text. */
  function Window(src: string, offset: nat, length: nat): string
  {
    src[Min(offset, |src|)..Min(offset + length, |src|)]
  }

  /** The loop body for `i`: the window at i, formatted at offset i. */
  function LineAt(src: string, length: nat, offset: nat): string
  {
    FormatLine(offset, Window(src, offset, length), length)
  }

  function LineFormatter(src: string, length: nat): nat -> string
  {
    (i: nat) => LineAt(src, length, i)
  }

  /**
   * `hexdump(src, length)` on text. A step of zero makes `range` raise; a
   * negative step gives an empty range and so no lines.
   */
  function HexDumpOf(src: string, length: int): (r: Result<seq<string>, DumpError>)
    ensures r.Err? <==> length == 0
    ensures length < 0 ==> r == Ok([])
    ensures length != 0 && |src| == 0 ==> r == Ok([])
  {
    if length == 0 then Err(ZeroStep)
    else if length < 0 then Ok([])
    else Ok(Loop(0, |src|, length, LineFormatter(src, length)))
  }

  /** Slice k of the input: `src[k*length : (k+1)*length]`. */
  function Slice(src: string, k: nat, length: nat): string
  {
    Window(src, k * length, length)
  }

  /** The slices 0..n-1 put back together. */
  function JoinSlices(src: string, n: nat, length: nat): string
  {
    if n == 0 then "" else JoinSlices(src, n - 1, length) + Slice(src, n - 1, length)
  }

  /** The first n slices make up the first n * length characters of the input. */
  lemma {:induction false} JoinSlicesPrefix(src: string, n: nat, length: nat)
    ensures JoinSlices(src, n, length) == src[..Min(n * length, |src|)]
  {
    if n > 0 {
      MulSucc(n - 1, length);
      JoinSlicesPrefix(src, n - 1, length);
      assert src[..Min(n * length, |src|)] == src[..Min((n - 1) * length, |src|)] + Slice(src, n - 1, length);
    }
  }

  /** With `length >= 1` the dump of n characters has ceil(n / length) lines, none for empty input. */
  lemma HexDumpCount(src: string, length: nat)
    requires 1 <= length
    ensures HexDumpOf(src, length).Ok?
    ensures |src| == 0 <==> |HexDumpOf(src, length).value| == 0
    ensures |HexDumpOf(src, length).value| == (|src| + length - 1) / length
  {
    var lines := Loop(0, |src|, length, LineFormatter(src, length));
    var n := |lines|;
    assert HexDumpOf(src, length) == Ok(lines);
    assert n == Blocks(|src|, length) by {
      LoopCount(0, |src|, length, LineFormatter(src, length));
    }
    BlocksBounds(|src|, length);
    if |src| > 0 {
      assert (n - 1) * length < |src| <= n * length;
      CeilingDiv(|src|, length, n);
    } else {
      assert n == 0;
      DivSmall(length - 1, length);
    }
  }

  lemma DivSmall(a: nat, b: nat)
    requires a < b
    ensures a / b == 0
  {
    var d := a / b;
    var m := a % b;
    assert a == d * b + m && 0 <= m < b;
    MulCancel(d, 1, b);
    MulCancel(-1, d, b);
  }

  /**
   * Line k of the dump is slice k formatted at offset k * length, and the
   * slice has between 1 and `length` characters.
   */
  lemma HexDumpLine(src: string, length: nat, k: nat)
    requires 1 <= length
    requires k < |HexDumpOf(src, length).value|
    ensures k * length < |src|
    ensures 1 <= |Slice(src, k, length)| <= length
    ensures HexDumpOf(src, length).value[k] == FormatLine(k * length, Slice(src, k, length), length)
  {
    LoopAt(0, |src|, length, LineFormatter(src, length), k);
  }

  /** The slices of all the lines concatenate back to the input. */
  lemma HexDumpSlicesCover(src: string, length: nat)
    requires 1 <= length
    ensures HexDumpOf(src, length).Ok?
    ensures JoinSlices(src, |HexDumpOf(src, length).value|, length) == src
  {
    var n := |HexDumpOf(src, length).value|;
    LoopCount(0, |src|, length, LineFormatter(src, length));
    BlocksBounds(|src|, length);
    if |src| > 0 {
      MulSucc(n - 1, length);
    }
    JoinSlicesPrefix(src, n, length);
  }

  // ---------------------------------------------------------------------
  // Reading a dump back.
  // ---------------------------------------------------------------------

  /** The index of the first space of a line, or its length when there is none. */
  function FirstSpace(line: string): (r: nat)
    ensures r <= |line|
    ensures forall p :: 0 <= p < r ==> line[p] != ' '
    ensures r < |line| ==> line[r] == ' '
  {
    if |line| == 0 || line[0] == ' ' then 0 else 1 + FirstSpace(line[1..])
  }

  /**
   * Reads one line back into its offset and its slice. The offset column
   * ends at the first space; the slice length is what is left after the
   * fixed-width hex column.
   */
  function ParseLine(line: string, length: nat): Option<(nat, string)>
  {
    var o := FirstSpace(line);
    if |line| < o + 2 + 3 * length then None
    else
      var n := |line| - (o + 2 + 3 * length);
      if n > length then None
      else Some((HexValue(line[..o]), DecodeHexField(line[o + 1..o + 1 + 3 * length], n)))
  }

  /** A formatted line parses back to the offset and slice it was made from. */
  lemma ParseFormatLine(offset: nat, word: string, length: nat)
    requires Latin1(word)
    requires |word| <= length
    ensures ParseLine(FormatLine(offset, word, length), length) == Some((offset, word))
  {
    LineLayout(offset, word, length);
    DecodeHexFieldRoundTrip(word, length);
    var line := FormatLine(offset, word, length);
    var o := |Format(offset, 4, false)|;
    forall p | 0 <= p < o
      ensures line[p] != ' '
    {
      assert IsDigitOf(line[p], false);
    }
    assert FirstSpace(line) == o;
  }

  /**
   * Reads a dump back, checking that every line's offset is the position
   * its slice starts at; `pos` is the offset the next line must carry.
   */
  function UndumpFrom(lines: seq<string>, length: nat, pos: nat): Option<string>
    decreases |lines|
  {
    if |lines| == 0 then Some("")
    else match ParseLine(lines[0], length)
      case None => None
      case Some((offset, word)) =>
        if offset != pos then None
        else match UndumpFrom(lines[1..], length, pos + |word|)
          case None => None
          case Some(rest) => Some(word + rest)
  }

  function Undump(lines: seq<string>, length: nat): Option<string>
  {
    UndumpFrom(lines, length, 0)
  }

  /** One step of reading back: a line that parses at the expected offset, followed by a readable rest. */
  lemma UndumpCons(line: string, tail: seq<string>, length: nat, pos: nat, word: string, rest: string)
    requires ParseLine(line, length) == Some((pos, word))
    requires UndumpFrom(tail, length, pos + |word|) == Some(rest)
    ensures UndumpFrom([line] + tail, length, pos) == Some(word + rest)
  {
    assert ([line] + tail)[1..] == tail;
  }

  /** The line for offset `start` parses back to that offset and the window it shows. */
  lemma LineAtParses(src: string, length: nat, start: nat)
    requires Latin1(src)
    requires 1 <= length
    ensures ParseLine(LineAt(src, length, start), length) == Some((start, Window(src, start, length)))
  {
    ParseFormatLine(start, Window(src, start, length), length);
  }

  /** A window is followed, in the input, by the text after it. */
  lemma WindowSplit(src: string, start: nat, length: nat)
    requires start <= |src|
    ensures start + |Window(src, start, length)| == Min(start + length, |src|)
    ensures src[start..] == Window(src, start, length) + src[Min(start + length, |src|)..]
  {
  }

  /** The first line read back, given that the lines after it read back as the rest of the input. */
  lemma UndumpLoopStep(src: string, length: nat, start: nat)
    requires Latin1(src)
    requires 1 <= length
    requires start < |src|
    requires var next := Min(start + length, |src|);
             UndumpFrom(Loop(next, |src|, length, LineFormatter(src, length)), length, next) == Some(src[next..])
    ensures UndumpFrom(Loop(start, |src|, length, LineFormatter(src, length)), length, start) == Some(src[start..])
  {
    var body := LineFormatter(src, length);
    var next := Min(start + length, |src|);
    var tail := Loop(start + length, |src|, length, body);
    LoopTail(start, |src|, length, body);
    assert tail == Loop(next, |src|, length, body);
    LineAtParses(src, length, start);
    WindowSplit(src, start, length);
    UndumpCons(LineAt(src, length, start), tail, length, start, Window(src, start, length), src[next..]);
  }

  /** Reading back the lines from offset `start` on gives the rest of the input. */
  lemma {:induction false} UndumpLoop(src: string, length: nat, start: nat)
    requires Latin1(src)
    requires 1 <= length
    requires start <= |src|
    ensures UndumpFrom(Loop(start, |src|, length, LineFormatter(src, length)), length, start) == Some(src[start..])
    decreases |src| - start
  {
    if start < |src| {
      UndumpLoop(src, length, Min(start + length, |src|));
      UndumpLoopStep(src, length, start);
    } else {
      assert src[start..] == "";
    }
  }

  /** The dump is a faithful encoding of text below 256: reading it back recovers the input, offsets included. */
  lemma UndumpHexDump(src: string, length: nat)
    requires Latin1(src)
    requires 1 <= length
    ensures HexDumpOf(src, length).Ok?
    ensures Undump(HexDumpOf(src, length).value, length) == Some(src)
  {
    UndumpLoop(src, length, 0);
  }

  // ---------------------------------------------------------------------
  // Byte input.
  // ---------------------------------------------------------------------

  /**
   * `hexdump(src, length)` on bytes: `src.decode()` comes first, so bytes
   * that are not UTF-8 raise before the step is looked at; decoded text is
   * dumped as text, offsets counting characters.
   */
  function HexDumpBytes(src: Chunk, length: int): (r: Result<seq<string>, DumpError>)
    ensures r == Err(DecodeFailure) <==> !Utf8(src)
    ensures r == Err(ZeroStep) <==> Utf8(src) && length == 0
    ensures r.Ok? <==> Utf8(src) && length != 0
  {
    match Decode(src)
    case None => Err(DecodeFailure)
    case Some(text) => HexDumpOf(text, length)
  }

  /**
   * Dumping UTF-8 bytes whose characters are all below U+0100 is lossless:
   * reading the dump back and encoding the text gives the bytes again.
   */
  lemma UndumpBytes(src: Chunk, length: nat)
    requires Utf8(src)
    requires 1 <= length
    ensures Latin1(Decode(src).value) ==>
              && HexDumpBytes(src, length).Ok?
              && Undump(HexDumpBytes(src, length).value, length) == Decode(src)
              && Encode(Undump(HexDumpBytes(src, length).value, length).value) == src
  {
    var text := Decode(src).value;
    if Latin1(text) {
      UndumpHexDump(text, length);
      EncodeDecode(src);
    }
  }

  /** Bytes that decode dump as their text. */
  lemma DumpDecoded(src: Chunk, text: string, length: int)
    requires Decode(src) == Some(text)
    ensures HexDumpBytes(src, length) == HexDumpOf(text, length)
  {
  }

  /**
   * ASCII bytes dump byte for byte: the dump is that of the text with the
   * same codes, so it has one line per started block of `length` bytes and
   * its offsets count bytes.
   */
  lemma HexDumpAscii(src: Chunk, length: nat)
    requires forall i :: 0 <= i < |src| ==> src[i] < 0x80
    requires 1 <= length
    ensures HexDumpBytes(src, length) == HexDumpOf(BytesAsText(src), length)
    ensures HexDumpBytes(src, length).Ok?
    ensures |HexDumpBytes(src, length).value| == (|src| + length - 1) / length
  {
    var text := BytesAsText(src);
    DecodeAscii(src);
    DumpDecoded(src, text, length);
    assert HexDumpOf(text, length).Ok? && |HexDumpOf(text, length).value| == (|src| + length - 1) / length by {
      HexDumpCount(text, length);
    }
  }

  /**
   * The dump of the bytes themselves, one pair per byte: the text is the
   * Latin-1 reading of the bytes, which every byte string has, so only a
   * zero step fails.
   */
  function HexDumpRaw(src: Chunk, length: int): (r: Result<seq<string>, DumpError>)
    ensures r.Err? <==> length == 0
    ensures r.Err? ==> r.error == ZeroStep
  {
    HexDumpOf(BytesAsText(src), length)
  }

  /** The raw dump loses nothing: it reads back to one character per byte, with the byte's code. */
  lemma UndumpRaw(src: Chunk, length: nat)
    requires 1 <= length
    ensures HexDumpRaw(src, length).Ok?
    ensures Undump(HexDumpRaw(src, length).value, length) == Some(BytesAsText(src))
    ensures forall i :: 0 <= i < |src| ==> BytesAsText(src)[i] as int == src[i] as int
  {
    UndumpHexDump(BytesAsText(src), length);
  }
}
