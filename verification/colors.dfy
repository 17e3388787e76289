/**
 * RGB pixels with one byte per channel, and the two colour transformations
 * the exporters apply to them: contour darkening and the run-flush sentinel.
 */
module Colors {

  /** A byte, Rust `u8`. */
  newtype byte = x: int | 0 <= x < 256

  /** One pixel (Rust `[u8; 3]`). */
  datatype Rgb = Rgb(r: byte, g: byte, b: byte)

  const Black: Rgb := Rgb(0, 0, 0)

  /**
   * One channel darkened by CONTOUR_DARKNESS = 0.40, that is `(c as f32 * 0.6) as u8`.
   * The f32 factor `1.0 - 0.40` rounds to a value slightly above 0.6, so the
   * truncated product is exactly the integer quotient `(6 * c) / 10` for every byte.
   */
  function DarkenChannel(c: byte): (d: byte)
    ensures d <= c
    ensures c != 0 ==> d < c
    ensures 10 * (d as int) <= 6 * (c as int) < 10 * (d as int) + 10
  {
    ((c as int * 6) / 10) as byte
  }

  /** A contour pixel: every channel darkened, none increased. */
  function Darken(c: Rgb): (d: Rgb)
    ensures d.r <= c.r && d.g <= c.g && d.b <= c.b
    ensures c != Black ==> d != c
  {
    Rgb(DarkenChannel(c.r), DarkenChannel(c.g), DarkenChannel(c.b))
  }

  /** One channel XOR 0xFF, as export_svg's sentinel computes it (see XorFlipsEveryBit). */
  function FlipChannel(c: byte): (f: byte)
    ensures f != c
    ensures 255 - f == c
  {
    255 - c
  }

  /** For every 8-bit value, FlipChannel is the bitwise XOR with 0xFF. */
  lemma XorFlipsEveryBit(c: bv8)
    ensures c ^ 0xFF == 0xFF - c
    ensures FlipChannel(c as int as byte) as int == (c ^ 0xFF) as int
  {
    assert c ^ 0xFF == 0xFF - c;
  }

  /** The SVG row encoder's sentinel: each channel XOR 0xFF. It differs from its input. */
  function Sentinel(c: Rgb): (s: Rgb)
    ensures s != c
    ensures s.r != c.r && s.g != c.g && s.b != c.b
  {
    Rgb(FlipChannel(c.r), FlipChannel(c.g), FlipChannel(c.b))
  }
}
