/** The unsigned integers of the kernel. */
module Words {
  type u8 = n: int | 0 <= n < 0x100
  type u16 = n: int | 0 <= n < 0x1_0000
  type u32 = n: int | 0 <= n < WORD

  const WORD := 0x1_0000_0000
}
