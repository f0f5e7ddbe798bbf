/** The saved context of a coroutine (ctx.h). */
module Context {
  import opened Common

  /** The callee-saved registers of section 3.2.1 of the System V AMD64 psABI, the stack pointer and
      where to continue. In the kernel RSP is counted from the bottom of the coroutine's own stack. */
  datatype Context = Context(
    rbx: nat, rbp: nat, r12: nat, r13: nat, r14: nat, r15: nat,
    rsp: nat, rip: nat, mxcsr: nat, x87: nat)

  type address = a: nat | a < 0x1_0000_0000_0000_0000

  /** A stored address. */
  type Quadword = s: seq<byte> | |s| == 8 witness [0, 0, 0, 0, 0, 0, 0, 0]

  // Code addresses, whatever the linker makes them; RETADDR is where save_context says to continue.
  const CO_LAUNCH: address
  const RETADDR: address
  const MXCSR_MASK: nat := 0x1f80
  const X87_CW_MASK: nat := 0x37f

  /** The word in the outermost frame of every coroutine, into which its routine returns: co_exit as it is stored. */
  const EXIT_GUARD: Quadword

  /** The address of co_exit. */
  const CO_EXIT: nat := FromLittleEndian(EXIT_GUARD)

  /** No other word reads as co_exit, and storing co_exit gives the guard. */
  lemma GuardNamesExit(w: Quadword)
    ensures FromLittleEndian(w) == CO_EXIT <==> w == EXIT_GUARD
    ensures EXIT_GUARD == LittleEndian(CO_EXIT, 8) && CO_EXIT < Power256(8)
  {
    FromLittleEndianRoundTrip(w);
    FromLittleEndianRoundTrip(EXIT_GUARD);
  }

  /** The constructor of coroutine together with set_stack: a new coroutine starts in co_launch, with only
      the return guard on its stack. */
  function FreshContext(stackSize: nat): Context
    requires stackSize >= 8
  {
    Context(0, 0, 0, 0, 0, 0, stackSize - 8, CO_LAUNCH, MXCSR_MASK, X87_CW_MASK)
  }
}
