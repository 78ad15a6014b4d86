/** RGB565 colours: 5 bits of red, 6 of green and 5 of blue packed into a
    16-bit word, red in the high bits. */
module Colors {

  /** The colour word for red 0..31, green 0..63 and blue 0..31. */
  function MakeColor(red: int, green: int, blue: int): (c: int)
    requires 0 <= red < 32 && 0 <= green < 64 && 0 <= blue < 32
    ensures 0 <= c < 0x1_0000
    // each component is recovered from its own bit field
    ensures c / 2048 == red && (c / 32) % 64 == green && c % 32 == blue
  {
    red * 2048 + green * 32 + blue
  }

  /** Distinct components give distinct colours. */
  lemma MakeColorIsInjective(r1: int, g1: int, b1: int, r2: int, g2: int, b2: int)
    requires 0 <= r1 < 32 && 0 <= g1 < 64 && 0 <= b1 < 32
    requires 0 <= r2 < 32 && 0 <= g2 < 64 && 0 <= b2 < 32
    requires MakeColor(r1, g1, b1) == MakeColor(r2, g2, b2)
    ensures r1 == r2 && g1 == g2 && b1 == b2
  {
  }

  /** Every 16-bit word is the colour of its own bit fields. */
  lemma EveryWordIsAColor(c: int)
    requires 0 <= c < 0x1_0000
    ensures MakeColor(c / 2048, (c / 32) % 64, c % 32) == c
  {
    assert c == (c / 2048) * 2048 + c % 2048;
    assert c % 2048 == ((c % 2048) / 32) * 32 + c % 32;
    assert (c / 32) % 64 == (c % 2048) / 32;
  }

  /** The named colours the interface declares, as components. */
  const LcdBlack := 0x0000
  const LcdRed := 0xF800
  const LcdGreen := 0x07E0
  const LcdBlue := 0x001F
  const LcdWhite := 0xFFFF
  const LcdOrange := 0xFD20

  lemma PrimaryColorsAreRgb565()
    ensures MakeColor(31, 0, 0) == LcdRed
    ensures MakeColor(0, 63, 0) == LcdGreen
    ensures MakeColor(0, 0, 31) == LcdBlue
  {
  }

  lemma BlackAndWhiteAreRgb565()
    ensures MakeColor(0, 0, 0) == LcdBlack
    ensures MakeColor(31, 63, 31) == LcdWhite
  {
  }

  lemma OrangeIsRgb565()
    ensures MakeColor(31, 41, 0) == LcdOrange
  {
  }
}
