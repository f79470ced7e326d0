/** The sizes of the machine: kern/arch/x86/x86_const.h. */
module Machine {
  const WORD32 := 0x1_0000_0000
  const WORD64 := 0x1_0000_0000_0000_0000
  const PAGE := 4096
  /** The end of the kernel's part of every address space. */
  const HIGHMEM := 0x1000_0000
}
