/**
 * text.rs: labels drawn with a 6×8 bitmap font. The font image is 240
 * pixels wide, one bit per pixel, most significant bit first, with 40
 * glyphs per row of cells; `char_offset` picks a glyph cell for a
 * character and `blit_text` renders a string as grey-alpha pixel pairs,
 * row by row. The font bytes are a parameter.
 */
module Text {
  type Byte = bv8

  /** The cell of the `?` glyph, used for characters the font lacks. */
  const Fallback: nat := 31

  const GlyphsPerRow: nat := 40

  /** `char_offset`: printable ASCII, then the printable Latin-1 supplement, each packed after the other. */
  function CharOffset(c: char): (r: nat)
    ensures c < ' ' ==> r == Fallback
    ensures ' ' <= c <= '~' ==> r == c as int - 32
    ensures '~' < c < '\U{A1}' || '\U{FF}' < c ==> r == Fallback
    ensures '\U{A1}' <= c <= '\U{FF}' ==> r == c as int - 66
  {
    if c < ' ' then Fallback
    else if c <= '~' then c as int - 32
    else if c < '\U{A1}' || c > '\U{FF}' then Fallback
    else c as int - 32 - 34
  }

  /** The characters the font draws. */
  predicate Printable(c: char) { ' ' <= c <= '~' || '\U{A1}' <= c <= '\U{FF}' }

  /** The character drawn in glyph cell `o`. */
  function GlyphChar(o: nat): char
    requires o < 190
  {
    if o < 95 then (o + 32) as char else (o + 66) as char
  }

  /** There are 190 glyph cells, and every character lands in one. */
  lemma CharOffsetBound(c: char)
    ensures CharOffset(c) < 190
  {
  }

  /** Glyph cells and printable characters correspond one to one: `char_offset` loses nothing on them. */
  lemma CharOffsetRoundTrip(c: char, o: nat)
    requires o < 190
    ensures Printable(c) ==> GlyphChar(CharOffset(c)) == c
    ensures Printable(GlyphChar(o)) && CharOffset(GlyphChar(o)) == o
  {
  }

  /** Characters the font lacks are drawn as `?`. */
  lemma MissingIsQuestionMark(c: char)
    requires !Printable(c)
    ensures CharOffset(c) == CharOffset('?')
  {
  }

  /** The index of pixel (`x`, `y`) of the glyph for `c` in the font bitmap, counted in bits. */
  function BitIndex(c: char, x: nat, y: nat): nat
  {
    var off := CharOffset(c);
    var row := off / GlyphsPerRow;
    var charX := (off - row * GlyphsPerRow) * 6;
    var charY := row * 8;
    charX + x + (charY + y) * 240
  }

  /** `character_pixel`: the bit for the pixel, where bit 7 of a byte is its leftmost pixel. */
  function CharacterPixel(font: seq<Byte>, c: char, x: nat, y: nat): bool
    requires BitIndex(c, x, y) / 8 < |font|
  {
    var i := BitIndex(c, x, y);
    font[i / 8] & ((1 as bv8) << (7 - i % 8)) != 0
  }

  /** The glyph cell of offset `off` is column `off % 40` and row `off / 40` of 6×8 cells in a 240-pixel-wide image. */
  lemma BitIndexCell(c: char, x: nat, y: nat)
    ensures var off := CharOffset(c);
      BitIndex(c, x, y) == (off % 40 * 6 + x) + (off / 40 * 8 + y) * 240
  {
  }

  /** A pixel inside a glyph cell reads bit 9599 at most, so byte 1199 at most. */
  lemma BitIndexBound(c: char, x: nat, y: nat)
    requires x < 6 && y < 8
    ensures BitIndex(c, x, y) < 9600 && BitIndex(c, x, y) / 8 < 1200
  {
    CharOffsetBound(c);
  }

  /** Distinct glyph cells, or distinct pixels of one cell, never share a bit. */
  lemma BitIndexInjective(c: char, x: nat, y: nat, d: char, u: nat, v: nat)
    requires x < 6 && y < 8 && u < 6 && v < 8
    requires BitIndex(c, x, y) == BitIndex(d, u, v)
    ensures CharOffset(c) == CharOffset(d) && x == u && y == v
  {
    var o1, o2 := CharOffset(c), CharOffset(d);
    CellDecode(o1 % 40, o1 / 40, x, y);
    CellDecode(o2 % 40, o2 / 40, u, v);
    BitIndexCell(c, x, y);
    BitIndexCell(d, u, v);
  }

  lemma CellDecode(col: nat, row: nat, x: nat, y: nat)
    requires col < 40 && x < 6 && y < 8
    ensures var i := (col * 6 + x) + (row * 8 + y) * 240;
      i % 240 == col * 6 + x && i / 240 == row * 8 + y
      && (i % 240) % 6 == x && (i % 240) / 6 == col && (i / 240) % 8 == y && (i / 240) / 8 == row
  {
    var i := (col * 6 + x) + (row * 8 + y) * 240;
    assert 0 <= col * 6 + x < 240;
  }

  // Rendering a string.

  function ByteChar(b: Byte): char { (b as int) as char }

  /** Whether pixel `x` of row `y` of the rendered text is set: column `x` falls in the glyph of byte `x / 6`. */
  function Lit(font: seq<Byte>, text: seq<Byte>, x: nat, y: nat): bool
    requires |font| >= 1200 && x < 6 * |text| && y < 8
  {
    BitIndexBound(ByteChar(text[x / 6]), x % 6, y);
    CharacterPixel(font, ByteChar(text[x / 6]), x % 6, y)
  }

  /** The pixels of row `y`. */
  function RowBits(font: seq<Byte>, text: seq<Byte>, y: nat): (r: seq<bool>)
    requires |font| >= 1200 && y < 8
    ensures |r| == 6 * |text|
    ensures forall x :: 0 <= x < |r| ==> r[x] == Lit(font, text, x, y)
  {
    seq(6 * |text|, x requires 0 <= x < 6 * |text| => Lit(font, text, x, y))
  }

  /** The eight rows of pixels of a label. */
  function Glyphs(font: seq<Byte>, text: seq<Byte>): (g: seq<seq<bool>>)
    requires |font| >= 1200
    ensures |g| == 8
    ensures forall y :: 0 <= y < 8 ==> g[y] == RowBits(font, text, y)
  {
    seq(8, y requires 0 <= y < 8 => RowBits(font, text, y))
  }

  /** The grey and alpha bytes of one pixel: black and opaque where it is set, white and clear elsewhere. */
  function Pair(lit: bool): seq<Byte>
  {
    [if lit then 0 else 255, if lit then 255 else 0]
  }

  /** A row of pixels as grey-alpha bytes. */
  function Pairs(bits: seq<bool>): seq<Byte>
  {
    if |bits| == 0 then [] else Pairs(bits[..|bits| - 1]) + Pair(bits[|bits| - 1])
  }

  /** Rows of pixels as grey-alpha bytes, row after row. */
  function Image(rows: seq<seq<bool>>): seq<Byte>
  {
    if |rows| == 0 then [] else Image(rows[..|rows| - 1]) + Pairs(rows[|rows| - 1])
  }

  /** `blit_text`: eight rows of six pixels per byte of the text. */
  method BlitText(font: seq<Byte>, text: seq<Byte>) returns (data: seq<Byte>)
    requires |font| >= 1200
    ensures data == Image(Glyphs(font, text))
  {
    ghost var g := Glyphs(font, text);
    data := [];
    var y := 0;
    while y < 8
      invariant 0 <= y <= 8
      invariant data == Image(g[..y])
    {
      data := BlitRow(font, text, y, data);
      ImageSnoc(g, y);
      y := y + 1;
    }
    assert g[..8] == g;
  }

  /** One pass of the outer loop of `blit_text`: the pixels of row `y` pushed after `data`. */
  method BlitRow(font: seq<Byte>, text: seq<Byte>, y: nat, data: seq<Byte>) returns (out: seq<Byte>)
    requires |font| >= 1200 && y < 8
    ensures out == data + Pairs(RowBits(font, text, y))
  {
    ghost var bits := RowBits(font, text, y);
    out := data;
    var x := 0;
    while x < 6 * |text|
      invariant 0 <= x <= 6 * |text|
      invariant out == data + Pairs(bits[..x])
    {
      PixelStep(font, text, y, x, data);
      var isSet := CharacterPixel(font, ByteChar(text[x / 6]), x % 6, y);
      out := out + [if isSet then 0 else 255];
      out := out + [if isSet then 255 else 0];
      x := x + 1;
    }
    assert bits[..x] == bits;
  }

  /** Pushing the two bytes of pixel `x` of row `y` extends the row's bytes by that pixel. */
  lemma PixelStep(font: seq<Byte>, text: seq<Byte>, y: nat, x: nat, data: seq<Byte>)
    requires |font| >= 1200 && y < 8 && x < 6 * |text|
    ensures BitIndex(ByteChar(text[x / 6]), x % 6, y) / 8 < |font|
    ensures var isSet := CharacterPixel(font, ByteChar(text[x / 6]), x % 6, y);
      var bits := RowBits(font, text, y);
      data + Pairs(bits[..x]) + [if isSet then 0 else 255] + [if isSet then 255 else 0] == data + Pairs(bits[..x + 1])
  {
    BitIndexBound(ByteChar(text[x / 6]), x % 6, y);
    var bits := RowBits(font, text, y);
    assert bits[x] == CharacterPixel(font, ByteChar(text[x / 6]), x % 6, y);
    PairsSnoc(bits, x);
    PushPair(data, Pairs(bits[..x]), bits[x]);
  }

  lemma PushPair(data: seq<Byte>, row: seq<Byte>, lit: bool)
    ensures data + row + [if lit then 0 else 255] + [if lit then 255 else 0] == data + (row + Pair(lit))
  {
  }

  lemma PairsSnoc(bits: seq<bool>, x: nat)
    requires x < |bits|
    ensures Pairs(bits[..x + 1]) == Pairs(bits[..x]) + Pair(bits[x])
  {
    assert bits[..x + 1][..x] == bits[..x];
  }

  lemma ImageSnoc(rows: seq<seq<bool>>, y: nat)
    requires y < |rows|
    ensures Image(rows[..y + 1]) == Image(rows[..y]) + Pairs(rows[y])
  {
    assert rows[..y + 1][..y] == rows[..y];
  }

  lemma {:induction false} PairsLength(bits: seq<bool>)
    ensures |Pairs(bits)| == 2 * |bits|
    decreases |bits|
  {
    if |bits| > 0 {
      PairsLength(bits[..|bits| - 1]);
    }
  }

  /** Pixel `q` of a row is bytes `2q` and `2q + 1`. */
  lemma {:induction false} PairsPixel(bits: seq<bool>, q: nat)
    requires q < |bits|
    ensures 2 * q + 2 <= |Pairs(bits)|
    ensures Pairs(bits)[2 * q..2 * q + 2] == Pair(bits[q])
    decreases |bits|
  {
    var front := bits[..|bits| - 1];
    PairsLength(bits);
    PairsLength(front);
    if q < |bits| - 1 {
      PairsPixel(front, q);
      PairOfConcat(Pairs(front), Pair(bits[|bits| - 1]), 2 * q);
    }
  }

  /** Where row `r` starts when each row takes `w` bytes. */
  function RowStart(w: nat, r: nat): nat
  {
    if r == 0 then 0 else RowStart(w, r - 1) + w
  }

  lemma {:induction false} RowStartIsProduct(w: nat, r: nat)
    ensures RowStart(w, r) == w * r
  {
    if r > 0 {
      RowStartIsProduct(w, r - 1);
      assert w * (r - 1) + w == w * r;
    }
  }

  /** Rows that are all `m` pixels wide. */
  predicate Uniform(rows: seq<seq<bool>>, m: nat)
  {
    forall r :: 0 <= r < |rows| ==> |rows[r]| == m
  }

  lemma {:induction false} ImageLength(rows: seq<seq<bool>>, m: nat)
    requires Uniform(rows, m)
    ensures |Image(rows)| == RowStart(2 * m, |rows|)
    decreases |rows|
  {
    if |rows| > 0 {
      ImageLength(rows[..|rows| - 1], m);
      PairsLength(rows[|rows| - 1]);
    }
  }

  /** Pixel `q` of row `r` is bytes `RowStart(2m, r) + 2q` and the one after. */
  lemma {:induction false} ImagePixel(rows: seq<seq<bool>>, m: nat, r: nat, q: nat)
    requires Uniform(rows, m) && r < |rows| && q < m
    ensures RowStart(2 * m, r) + 2 * q + 2 <= |Image(rows)|
    ensures Image(rows)[RowStart(2 * m, r) + 2 * q..RowStart(2 * m, r) + 2 * q + 2] == Pair(rows[r][q])
    decreases |rows|
  {
    var front, last := rows[..|rows| - 1], rows[|rows| - 1];
    ImageLength(rows, m);
    ImageLength(front, m);
    var at := RowStart(2 * m, r) + 2 * q;
    if r < |rows| - 1 {
      ImagePixel(front, m, r, q);
      assert front[r] == rows[r];
      PairOfConcat(Image(front), Pairs(last), at);
    } else {
      PairsPixel(last, q);
      PairOfConcat(Image(front), Pairs(last), at);
    }
  }

  /** Two bytes read from a concatenation come from whichever part holds them. */
  lemma PairOfConcat(a: seq<Byte>, b: seq<Byte>, i: nat)
    requires i + 2 <= |a| + |b|
    requires i + 2 <= |a| || |a| <= i
    ensures i + 2 <= |a| ==> (a + b)[i..i + 2] == a[i..i + 2]
    ensures |a| <= i ==> (a + b)[i..i + 2] == b[i - |a|..i - |a| + 2]
  {
  }

  /**
   * `blit_text` gives 2·8·6 bytes per byte of text, in row-major order:
   * the pair for pixel `x` of row `y` starts at byte 2·(6·|text|·y + x),
   * and it is (0, 255) where the glyph of byte `x / 6` has pixel
   * (`x % 6`, `y`) set and (255, 0) where it does not.
   */
  lemma BlitLayout(font: seq<Byte>, text: seq<Byte>, x: nat, y: nat)
    requires |font| >= 1200 && x < 6 * |text| && y < 8
    ensures |Image(Glyphs(font, text))| == 96 * |text|
    ensures BitIndex(ByteChar(text[x / 6]), x % 6, y) / 8 < 1200
    ensures PairAt(Image(Glyphs(font, text)), 2 * (6 * |text| * y + x),
      if CharacterPixel(font, ByteChar(text[x / 6]), x % 6, y) then [0, 255] else [255, 0])
  {
    var g := Glyphs(font, text);
    var m := 6 * |text|;
    assert Uniform(g, m);
    ImageLength(g, m);
    ImagePixel(g, m, y, x);
    BitIndexBound(ByteChar(text[x / 6]), x % 6, y);
    RowStartIsProduct(2 * m, 8);
    RowStartIsProduct(2 * m, y);
    DoubleRow(|text|, x, y);
  }

  /** Bytes `at` and `at + 1` of `d` exist and are `p`. */
  predicate PairAt(d: seq<Byte>, at: nat, p: seq<Byte>)
  {
    at + 2 <= |d| && d[at..at + 2] == p
  }

  lemma DoubleRow(n: nat, x: nat, y: nat)
    ensures 2 * (6 * n * y + x) == 2 * (6 * n) * y + 2 * x
  {
  }
}
