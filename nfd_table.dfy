/**
 * The part of Unicode canonical decomposition (NFD, Unicode Standard Annex #15, data of
 * Unicode 15.0) that survives `removeVietnameseTones`: every code point whose canonical
 * decomposition contains an ASCII letter or digit, mapped to that letter or digit. Each such
 * decomposition is one ASCII base letter followed only by combining marks, so after the
 * marks and every other non-alphanumeric character are removed, the code point stands for
 * exactly its base letter. Code points absent from the table either decompose to
 * themselves or to characters that are all removed later.
 */
module NfdTable {
  import opened Wrappers
  import JsText

  type AsciiAlnumChar = c: char | JsText.IsAsciiAlnum(c) witness 'a'

  /** One character per code point from U+00C0 to U+023F (the Latin-1 Supplement letters and
      Latin Extended-A and -B), in rows of 32: the ASCII base letter of its canonical
      decomposition, or '.' where it has none. */

  const LatinBlocks: seq<string> := [
      "AAAAAA.CEEEEIIII.NOOOOO..UUUUY..",  // U+00C0
      "aaaaaa.ceeeeiiii.nooooo..uuuuy.y",  // U+00E0
      "AaAaAaCcCcCcCcDd..EeEeEeEeEeGgGg",  // U+0100
      "GgGgHh..IiIiIiIiI...JjKk.LlLlLl.",  // U+0120
      "...NnNnNn...OoOoOo..RrRrRrSsSsSs",  // U+0140
      "SsTtTt..UuUuUuUuUuUuWwYyYZzZzZz.",  // U+0160
      "................................",  // U+0180
      "Oo.............Uu...............",  // U+01A0
      ".............AaIiOoUuUuUuUuUu.Aa",  // U+01C0
      "Aa....GgKkOoOo..j...Gg..NnAa....",  // U+01E0
      "AaAaEeEeIiIiOoOoRrRrUuUuSsTt..Hh",  // U+0200
      "......AaEeOoOoOoOoYy............"   // U+0220
    ]

  /** The same for Latin Extended Additional, U+1E00 to U+1EFF, which holds the Vietnamese
      letters with two diacritics. */
  const LatinExtendedAdditional: seq<string> := [
      "AaBbBbBbCcDdDdDdDdDdEeEeEeEeEeFf",  // U+1E00
      "GgHhHhHhHhHhIiIiKkKkKkLlLlLlLlMm",  // U+1E20
      "MmMmNnNnNnNnOoOoOoOoPpPpRrRrRrRr",  // U+1E40
      "SsSsSsSsSsTtTtTtTtUuUuUuUuUuVvVv",  // U+1E60
      "WwWwWwWwWwXxXxYyZzZzZzhtwy......",  // U+1E80
      "AaAaAaAaAaAaAaAaAaAaAaAaEeEeEeEe",  // U+1EA0
      "EeEeEeEeIiIiOoOoOoOoOoOoOoOoOoOo",  // U+1EC0
      "OoOoUuUuUuUuUuUuUuYyYyYyYy......"   // U+1EE0
    ]

  /** The ASCII base letter of `c`'s canonical decomposition, for the 490 code points that
      have one: 244 from U+00C0 to U+023F, 244 in Latin Extended Additional, and the Kelvin
      and Angstrom signs. */
  function BaseLetter(c: char): (r: Option<AsciiAlnumChar>)
    ensures r.Some? ==> ('\U{00C0}' <= c <= '\U{023F}') || ('\U{1E00}' <= c <= '\U{1EFF}') ||
                        c == '\U{212A}' || c == '\U{212B}'
  {
    if '\U{00C0}' <= c <= '\U{023F}' then Entry(LatinBlocks, c as int - 0xC0)
    else if '\U{1E00}' <= c <= '\U{1EFF}' then Entry(LatinExtendedAdditional, c as int - 0x1E00)
    else if c == '\U{212A}' then Some('K')
    else if c == '\U{212B}' then Some('A')
    else None
  }

  /** The letter at offset `i` of a table of rows of 32; '.' and offsets outside it give
      none. */
  function Entry(rows: seq<string>, i: int): Option<AsciiAlnumChar> {
    if 0 <= i && i / 32 < |rows| && i % 32 < |rows[i / 32]| && JsText.IsAsciiAlnum(rows[i / 32][i % 32])
    then Some(rows[i / 32][i % 32])
    else None
  }
}
