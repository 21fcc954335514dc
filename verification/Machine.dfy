/** The sizes of machine words. */
module Machine {
  const TWO_64: nat := 0x1_0000_0000_0000_0000

  const USIZE_MAX: nat := TWO_64 - 1
}
