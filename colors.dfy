/** The keyboard colour (`Rgb`): three 8-bit channels, passed through to the device unchanged. */
module Colors {
  import opened Prelude

  /** A value type: passing an `Rgb` copies it, so callers' colours are never changed by a call. */
  datatype Rgb = Rgb(r: uint8, g: uint8, b: uint8)

  /** Derived equality: two colours are equal exactly when all three channels are. */
  lemma {:induction false} RgbEqualityIsChannelwise(x: Rgb, y: Rgb)
    ensures x == y <==> (x.r == y.r && x.g == y.g && x.b == y.b)
    ensures 0 <= x.r < 0x100 && 0 <= x.g < 0x100 && 0 <= x.b < 0x100
  {
  }
}
