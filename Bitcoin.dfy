/** The few bitcoinj and Java types the core passes around, by their values. */
module Bitcoin {

  /** A bitcoinj `Address`, by its text (`Address.toString()`). */
  type Address = string

  const LONG_MIN: int := -0x8000_0000_0000_0000
  const LONG_MAX: int := 0x7FFF_FFFF_FFFF_FFFF

  /** A Java `long`, such as `Coin.value` (an amount in satoshis). */
  type Long = x: int | LONG_MIN <= x <= LONG_MAX
}
