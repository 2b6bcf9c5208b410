/**
 * The HEX_FILTER translation table of the proxy and the `str.translate` call
 * that renders the printable column of a hex dump.
 *
 * The table is built from Python's own rule: entry i is chr(i) when
 * `repr(chr(i))` is exactly three characters long (one character between
 * two quotes) and "." otherwise. `Repr` models that repr for the first 256
 * code points, and `Kept` is the explicit set of characters the rule keeps.
 */
module HexFilter {
  import HexFormat

  /** Every character of s is one of the first 256 code points (Latin-1). */
  predicate Latin1(s: string) {
    forall j :: 0 <= j < |s| ==> s[j] as int < 256
  }

  /**
   * Unicode general category of a code point below 256, coarsened to what
   * Python's printability test tells apart: Cc, Zs, Cf and all the others.
   */
  datatype Category = Control | SpaceSeparator | FormatChar | Graphic

  function CategoryOf(i: nat): Category
    requires i < 256
  {
    if i < 0x20 || 0x7F <= i <= 0x9F then Control
    else if i == 0x20 || i == 0xA0 then SpaceSeparator
    else if i == 0xAD then FormatChar
    else Graphic
  }

  /**
   * `chr(i).isprintable()`: characters of categories Cc, Cf and Zs are not
   * printable, except the ASCII space.
   */
  predicate IsPrintable(i: nat)
    requires i < 256
  {
    i == 0x20 || CategoryOf(i) == Graphic
  }

  /** The body of `repr(chr(i))` between its quotes. */
  function Escape(i: nat): (s: string)
    requires i < 256
    ensures 1 <= |s|
  {
    if i == 0x5C then "\\\\"
    else if i == 0x09 then "\\t"
    else if i == 0x0A then "\\n"
    else if i == 0x0D then "\\r"
    else if !IsPrintable(i) then "\\x" + HexFormat.Format(i, 2, false)
    else [i as char]
  }

  /**
   * `repr(chr(i))`: single quotes, except for the single quote itself, which
   * is shown between double quotes and so needs no escape.
   */
  function Repr(i: nat): (s: string)
    requires i < 256
    ensures 3 <= |s|
    ensures s[0] == s[|s| - 1]
    ensures s[0] == (if i == 0x27 then '"' else '\'')
  {
    var quote := if i == 0x27 then '"' else '\'';
    [quote] + Escape(i) + [quote]
  }

  /**
   * The characters HEX_FILTER keeps: 0x20-0x7E without the backslash, and
   * 0xA1-0xFF without the soft hyphen.
   */
  predicate Kept(i: nat) {
    || (0x20 <= i <= 0x7E && i != 0x5C)
    || (0xA1 <= i <= 0xFF && i != 0xAD)
  }

  /** The repr rule keeps exactly the characters of `Kept`. */
  lemma ReprKept(i: nat)
    requires i < 256
    ensures |Repr(i)| == 3 <==> Kept(i)
  {
    assert |Repr(i)| == |Escape(i)| + 2;
  }

  /**
   * HEX_FILTER: `(len(repr(chr(i))) == 3) and chr(i) or "."` for i below
   * 256. chr(i) is never an empty string, so the and/or idiom is a plain
   * conditional here.
   */
  const Table: string := seq(256, i requires 0 <= i < 256 => if |Repr(i)| == 3 then i as char else '.')

  /** The table has 256 entries, entry i is chr(i) or ".", and it is chr(i) exactly for the kept characters. */
  lemma TableEntries()
    ensures |Table| == 256
    ensures forall i :: 0 <= i < 256 ==> Table[i] == (if Kept(i) then i as char else '.')
    ensures forall i :: 0 <= i < 256 ==> (Table[i] == i as char || Table[i] == '.')
  {
    forall i | 0 <= i < 256
      ensures Table[i] == (if Kept(i) then i as char else '.')
    {
      ReprKept(i);
    }
  }

  /**
   * `word.translate(HEX_FILTER)`: every character is looked up in the table
   * by its code point; a code point past the end of the table makes the
   * lookup fail, and `translate` then leaves the character as it is.
   */
  function Translate(word: string): (r: string)
    ensures |r| == |word|
    ensures forall j :: 0 <= j < |word| ==>
              r[j] == (if word[j] as int < 256 && !Kept(word[j] as int) then '.' else word[j])
    ensures Latin1(word) ==> Latin1(r)
  {
    TableEntries();
    seq(|word|, j requires 0 <= j < |word| => if word[j] as int < 256 then Table[word[j] as int] else word[j])
  }

  /** The printable column is a fixed point of the table: translating it again changes nothing. */
  lemma TranslateIdempotent(word: string)
    ensures Translate(Translate(word)) == Translate(word)
  {
  }
}
