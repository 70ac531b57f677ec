/** Go's int and time.Duration, 64 bits wide. */
module Int64 {

  /** Two's complement wrap-around. */
  function Wrap64(x: int): (r: int)
    ensures -0x8000_0000_0000_0000 <= r < 0x8000_0000_0000_0000
    ensures r == x <==> -0x8000_0000_0000_0000 <= x < 0x8000_0000_0000_0000
  {
    (x + 0x8000_0000_0000_0000) % 0x1_0000_0000_0000_0000 - 0x8000_0000_0000_0000
  }
}
