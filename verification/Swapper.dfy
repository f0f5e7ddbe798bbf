/** The context switch of the source as a small register and memory machine (swapper.s). */
module Swapper {
  import opened Common
  import opened Context

  /** The values that registers can hold; the x87 control word is 16 bits wide. */
  predicate Fits(c: Context) {
    && c.rbx < Power256(8) && c.rbp < Power256(8) && c.r12 < Power256(8) && c.r13 < Power256(8)
    && c.r14 < Power256(8) && c.r15 < Power256(8) && c.rsp < Power256(8) && c.rip < Power256(8)
    && c.mxcsr < Power256(4) && c.x87 < Power256(2)
  }

  /** context_t in memory: eight quadwords, the mxcsr doubleword, and the half of x87_cw that fnstcw writes. */
  const IMAGE_SIZE := 70

  function Registers(c: Context): (s: seq<byte>)
    ensures |s| == 48
  {
    LittleEndian(c.rbx, 8) + LittleEndian(c.rbp, 8) + LittleEndian(c.r12, 8) + LittleEndian(c.r13, 8)
    + LittleEndian(c.r14, 8) + LittleEndian(c.r15, 8)
  }

  function Image(c: Context): (s: seq<byte>)
    ensures |s| == IMAGE_SIZE
  {
    Registers(c) + LittleEndian(c.rsp, 8) + LittleEndian(c.rip, 8) + LittleEndian(c.mxcsr, 4) + LittleEndian(c.x87, 2)
  }

  function Word(mem: seq<byte>, at: nat, n: nat): nat
    requires at + n <= |mem|
  {
    FromLittleEndian(mem[at..at + n])
  }

  /** The registers that load_context takes from the bytes at the given address. */
  function Decode(mem: seq<byte>, at: nat): Context
    requires at + IMAGE_SIZE <= |mem|
  {
    Context(Word(mem, at, 8), Word(mem, at + 8, 8), Word(mem, at + 16, 8), Word(mem, at + 24, 8),
            Word(mem, at + 32, 8), Word(mem, at + 40, 8), Word(mem, at + 48, 8), Word(mem, at + 56, 8),
            Word(mem, at + 64, 4), Word(mem, at + 68, 2))
  }

  /** What ret does to RSP and RIP. */
  function Returned(mem: seq<byte>, c: Context): Context
    requires c.rsp + 8 <= |mem|
  {
    c.(rip := Word(mem, c.rsp, 8), rsp := c.rsp + 8)
  }

  lemma ImageDecodes(c: Context, mem: seq<byte>, at: nat)
    requires Fits(c) && at + IMAGE_SIZE <= |mem| && mem[at..at + IMAGE_SIZE] == Image(c)
    ensures Decode(mem, at) == c
  {
    ImagePieces(c);
    Piece(mem, at, c, 0, 8, c.rbx);
    Piece(mem, at, c, 8, 8, c.rbp);
    Piece(mem, at, c, 16, 8, c.r12);
    Piece(mem, at, c, 24, 8, c.r13);
    Piece(mem, at, c, 32, 8, c.r14);
    Piece(mem, at, c, 40, 8, c.r15);
    Piece(mem, at, c, 48, 8, c.rsp);
    Piece(mem, at, c, 56, 8, c.rip);
    Piece(mem, at, c, 64, 4, c.mxcsr);
    Piece(mem, at, c, 68, 2, c.x87);
  }

  lemma ImagePieces(c: Context)
    ensures var s := Image(c);
            && s[0..8] == LittleEndian(c.rbx, 8) && s[8..16] == LittleEndian(c.rbp, 8)
            && s[16..24] == LittleEndian(c.r12, 8) && s[24..32] == LittleEndian(c.r13, 8)
            && s[32..40] == LittleEndian(c.r14, 8) && s[40..48] == LittleEndian(c.r15, 8)
            && s[48..56] == LittleEndian(c.rsp, 8) && s[56..64] == LittleEndian(c.rip, 8)
            && s[64..68] == LittleEndian(c.mxcsr, 4) && s[68..70] == LittleEndian(c.x87, 2)
  {}

  lemma Piece(mem: seq<byte>, at: nat, c: Context, off: nat, n: nat, v: nat)
    requires at + IMAGE_SIZE <= |mem| && mem[at..at + IMAGE_SIZE] == Image(c)
    requires off + n <= IMAGE_SIZE && Image(c)[off..off + n] == LittleEndian(v, n) && v < Power256(n)
    ensures Word(mem, at + off, n) == v
  {
    SliceOfSlice(mem, at, at + IMAGE_SIZE, off, off + n);
    LittleEndianRoundTrip(v, n);
  }

  lemma SliceOfSlice(s: seq<byte>, a: nat, b: nat, i: nat, j: nat)
    requires a <= b <= |s| && i <= j <= b - a
    ensures s[a..b][i..j] == s[a + i..a + j]
  {
    assert forall k :: 0 <= k < j - i ==> s[a..b][i..j][k] == s[a + i..a + j][k];
  }

  /** Suspension is transparent. A caller of save_context with registers c, whose return address is at c.rsp, is
      suspended with its context saved at save; then anything may happen to memory except to the saved context
      and to the caller's live stack [c.rsp, top). When load_context is given the context and runs on through
      the ret at retaddr, the caller finds itself behind its call with every callee-saved register, the SSE and
      x87 control words, and its stack, as at the call. */
  lemma SuspensionTransparent(before: seq<byte>, c: Context, save: nat, top: nat, after: seq<byte>)
    requires Fits(c) && c.rsp + 8 <= top <= |before| == |after|
    requires save + IMAGE_SIZE <= |before| && (save + IMAGE_SIZE <= c.rsp || top <= save)
    requires var saved := Splice(before, save, Image(c.(rip := RETADDR)));
             && after[save..save + IMAGE_SIZE] == saved[save..save + IMAGE_SIZE]
             && after[c.rsp..top] == saved[c.rsp..top]
    ensures Decode(after, save) == c.(rip := RETADDR)
    ensures Returned(after, Decode(after, save)) == c.(rip := Word(before, c.rsp, 8), rsp := c.rsp + 8)
    ensures after[c.rsp..top] == before[c.rsp..top]
  {
    SpliceInside(before, save, Image(c.(rip := RETADDR)));
    SpliceOutside(before, save, Image(c.(rip := RETADDR)), c.rsp, top);
    assert RETADDR < Power256(8) by {
      assert Power256(8) == 0x1_0000_0000_0000_0000;
    }
    ImageDecodes(c.(rip := RETADDR), after, save);
    SliceOfSlice(after, c.rsp, top, 0, 8);
    SliceOfSlice(before, c.rsp, top, 0, 8);
  }

  /** What copying n bytes from src to dst does, one at a time and upwards. */
  function CopiedUp(m: seq<byte>, dst: nat, src: nat, n: nat): (r: seq<byte>)
    requires dst + n <= |m| && src + n <= |m|
    ensures |r| == |m|
  {
    if n == 0 then m
    else
      var before := CopiedUp(m, dst, src, n - 1);
      before[dst + n - 1 := before[src + n - 1]]
  }

  /** A byte outside the destination is as it was; between disjoint blocks, or downwards, one inside is the source's. */
  lemma {:induction false} CopiedUpAt(m: seq<byte>, dst: nat, src: nat, n: nat, i: nat)
    requires dst + n <= |m| && src + n <= |m| && i < |m| && (dst <= src || src + n <= dst)
    ensures CopiedUp(m, dst, src, n)[i] == if dst <= i < dst + n then m[src + (i - dst)] else m[i]
  {
    if n > 0 {
      CopiedUpAt(m, dst, src, n - 1, i);
      CopiedUpAt(m, dst, src, n - 1, src + n - 1);
    }
  }

  lemma {:induction false} CopiedUpIsSplice(m: seq<byte>, dst: nat, src: nat, n: nat)
    requires dst + n <= |m| && src + n <= |m| && (dst <= src || src + n <= dst)
    ensures CopiedUp(m, dst, src, n) == Splice(m, dst, m[src..src + n])
  {
    forall i | 0 <= i < |m|
      ensures CopiedUp(m, dst, src, n)[i] == Splice(m, dst, m[src..src + n])[i]
    {
      CopiedUpAt(m, dst, src, n, i);
    }
  }

  /** Moving up within the same block, the byte at dst is overwritten before it is read. */
  lemma {:induction false} CopiedUpRepeats(m: seq<byte>, dst: nat, src: nat, n: nat)
    requires dst + n <= |m| && src < dst < src + n
    ensures CopiedUp(m, dst, src, dst - src + 1)[dst + (dst - src)] == m[src]
    ensures CopiedUp(m, dst, src, n)[dst + (dst - src)] == m[src]
    decreases n
  {
    var d := dst - src;
    CopiedUpAt(m, dst, src, d, dst);
    if d + 1 < n {
      CopiedUpRepeats(m, dst, src, n - 1);
    }
  }

  /** The block arrives as it was before the copy. */
  predicate Moved(m: seq<byte>, dst: nat, src: nat, n: nat)
    requires dst + n <= |m| && src + n <= |m|
  {
    CopiedUp(m, dst, src, n) == Splice(m, dst, m[src..src + n])
  }

  lemma OverlapIsNotMoved(m: seq<byte>, dst: nat, src: nat, n: nat)
    requires dst + n <= |m| && src < dst < src + n && m[src] != m[dst]
    ensures !Moved(m, dst, src, n)
  {
    CopiedUpRepeats(m, dst, src, n);
    assert Splice(m, dst, m[src..src + n])[dst + (dst - src)] == m[dst];
  }

  /** The upward copy moves every block as it was, whatever the memory holds, if and only if the blocks do not
      overlap or it moves downwards. */
  lemma UpwardCopyIsRight(size: nat, dst: nat, src: nat, n: nat)
    requires dst + n <= size && src + n <= size
    ensures
      (forall m: seq<byte> {:trigger Moved(m, dst, src, n)} :: |m| == size ==> Moved(m, dst, src, n))
      <==> dst <= src || src + n <= dst
  {
    if dst <= src || src + n <= dst {
      forall m: seq<byte> | |m| == size
        ensures Moved(m, dst, src, n)
      {
        CopiedUpIsSplice(m, dst, src, n);
      }
    } else {
      var m: seq<byte> := seq(size, i => if i == src then 1 else 0);
      OverlapIsNotMoved(m, dst, src, n);
    }
  }

  class Cpu {
    var regs: Context
    var rax: nat
    var rcx: nat
    var rdx: nat
    var rsi: nat
    var rdi: nat
    const mem: array<byte>

    constructor (mem: array<byte>, regs: Context)
      ensures this.mem == mem && this.regs == regs
    {
      this.mem, this.regs := mem, regs;
      rax, rcx, rdx, rsi, rdi := 0, 0, 0, 0, 0;
    }

    /** mov, stmxcsr and fnstcw to memory: the n low bytes of v. */
    method Store(at: nat, v: nat, n: nat)
      requires at + n <= mem.Length
      modifies mem
      ensures mem[..] == Splice(old(mem[..]), at, LittleEndian(v, n))
    {
      var b := LittleEndian(v, n);
      forall i | 0 <= i < n {
        mem[at + i] := b[i];
      }
    }

    /** One store of save_context, next to what it has already written at base. */
    method StoreNext(ghost before: seq<byte>, base: nat, ghost done: seq<byte>, at: nat, v: nat, n: nat)
      requires base + |done| == at && at + n <= mem.Length == |before|
      requires mem[..] == Splice(before, base, done)
      modifies mem
      ensures mem[..] == Splice(before, base, done + LittleEndian(v, n))
    {
      SpliceSplice(before, base, done, LittleEndian(v, n));
      Store(at, v, n);
    }

    /** The six integer registers that save_context stores first. */
    method StoreRegisters()
      requires rdi + IMAGE_SIZE <= mem.Length
      modifies mem
      ensures mem[..] == Splice(old(mem[..]), rdi, Registers(regs))
    {
      ghost var before := mem[..];
      ghost var done := LittleEndian(regs.rbx, 8);
      Store(rdi, regs.rbx, 8);
      StoreNext(before, rdi, done, rdi + 8, regs.rbp, 8);
      done := done + LittleEndian(regs.rbp, 8);
      StoreNext(before, rdi, done, rdi + 16, regs.r12, 8);
      done := done + LittleEndian(regs.r12, 8);
      StoreNext(before, rdi, done, rdi + 24, regs.r13, 8);
      done := done + LittleEndian(regs.r13, 8);
      StoreNext(before, rdi, done, rdi + 32, regs.r14, 8);
      done := done + LittleEndian(regs.r14, 8);
      StoreNext(before, rdi, done, rdi + 40, regs.r15, 8);
    }

    /** save_context(rdi: save, rsi: new_stack, rdx: handler) */
    method SaveContext()
      requires rdi + IMAGE_SIZE <= mem.Length
      modifies this`regs, this`rax, mem
      ensures mem[..] == Splice(old(mem[..]), rdi, Image(old(regs).(rip := RETADDR)))
      ensures regs == old(regs).(rsp := rsi, rip := rdx)
    {
      ghost var before := mem[..];
      StoreRegisters();
      ghost var done := Registers(regs);
      rax := RETADDR;
      StoreNext(before, rdi, done, rdi + 48, regs.rsp, 8);
      done := done + LittleEndian(regs.rsp, 8);
      StoreNext(before, rdi, done, rdi + 56, rax, 8);
      done := done + LittleEndian(rax, 8);
      StoreNext(before, rdi, done, rdi + 64, regs.mxcsr, 4);
      done := done + LittleEndian(regs.mxcsr, 4);
      StoreNext(before, rdi, done, rdi + 68, regs.x87, 2);
      regs := regs.(rsp := rsi);
      regs := regs.(rip := rdx);
    }

    /** load_context(rdi: saved) */
    method LoadContext()
      requires rdi + IMAGE_SIZE <= mem.Length
      modifies this`regs, this`rax
      ensures regs == Decode(mem[..], rdi)
    {
      var m := mem[..];
      regs := regs.(rbx := Word(m, rdi, 8));
      regs := regs.(rbp := Word(m, rdi + 8, 8));
      regs := regs.(r12 := Word(m, rdi + 16, 8));
      regs := regs.(r13 := Word(m, rdi + 24, 8));
      regs := regs.(r14 := Word(m, rdi + 32, 8));
      regs := regs.(r15 := Word(m, rdi + 40, 8));
      regs := regs.(rsp := Word(m, rdi + 48, 8));
      rax := Word(m, rdi + 56, 8);
      regs := regs.(mxcsr := Word(m, rdi + 64, 4));
      regs := regs.(x87 := Word(m, rdi + 68, 2));
      regs := regs.(rip := rax);
    }

    /** The instruction at retaddr. */
    method Ret()
      requires regs.rsp + 8 <= mem.Length
      modifies this`regs
      ensures regs == Returned(mem[..], old(regs))
    {
      var target := Word(mem[..], regs.rsp, 8);
      regs := regs.(rsp := regs.rsp + 8, rip := target);
    }

    /** call_with_new_stack(rdi: new_stack, rsi: handler) */
    method CallWithNewStack()
      modifies this`regs
      ensures regs == old(regs).(rsp := rdi, rip := rsi)
    {
      regs := regs.(rsp := rdi);
      regs := regs.(rip := rsi);
    }

    /** One round of rep movsb. */
    method Movsb()
      requires rcx > 0 && rdi < mem.Length && rsi < mem.Length
      modifies this`rcx, this`rsi, this`rdi, mem
      ensures mem[..] == old(mem[..])[old(rdi) := old(mem[..])[old(rsi)]]
      ensures rcx == old(rcx) - 1 && rdi == old(rdi) + 1 && rsi == old(rsi) + 1
    {
      mem[rdi] := mem[rsi];
      rsi, rdi, rcx := rsi + 1, rdi + 1, rcx - 1;
    }

    /** co_memcpy(rdi: dst, rsi: src, rdx: len) */
    method CoMemcpy()
      requires rdi + rdx <= mem.Length && rsi + rdx <= mem.Length
      modifies this`rcx, this`rsi, this`rdi, mem
      ensures mem[..] == CopiedUp(old(mem[..]), old(rdi), old(rsi), rdx)
      ensures old(rdi) <= old(rsi) || old(rsi) + rdx <= old(rdi) ==>
        mem[..] == Splice(old(mem[..]), old(rdi), old(mem[..])[old(rsi)..old(rsi) + rdx])
      ensures rcx == 0 && rdi == old(rdi) + rdx && rsi == old(rsi) + rdx
    {
      ghost var before, dst, src, len := mem[..], rdi, rsi, rdx;
      ghost var k := 0;
      rcx := rdx;
      while rcx != 0
        invariant rdx == len && rcx + k == len && rdi == dst + k && rsi == src + k
        invariant mem[..] == CopiedUp(before, dst, src, k)
      {
        Movsb();
        k := k + 1;
      }
      if dst <= src || src + len <= dst {
        CopiedUpIsSplice(before, dst, src, len);
      }
    }

    /** A whole suspension on one processor: save, whatever happens next, load, ret. Interference stands for
        every instruction executed in between; it may change anything but the saved context and the live stack. */
    method SuspendAndResume(top: nat, interference: seq<byte>, scratch: Context)
      requires Fits(regs) && regs.rsp + 8 <= top <= mem.Length && rdi + IMAGE_SIZE <= mem.Length
      requires rdi + IMAGE_SIZE <= regs.rsp || top <= rdi
      requires |interference| == mem.Length
      requires var saved := Splice(mem[..], rdi, Image(regs.(rip := RETADDR)));
               && interference[rdi..rdi + IMAGE_SIZE] == saved[rdi..rdi + IMAGE_SIZE]
               && interference[regs.rsp..top] == saved[regs.rsp..top]
      modifies this`regs, this`rax, mem
      ensures regs == old(regs).(rip := Word(old(mem[..]), old(regs.rsp), 8), rsp := old(regs.rsp) + 8)
      ensures mem[old(regs.rsp)..top] == old(mem[regs.rsp..top])
    {
      SuspensionTransparent(mem[..], regs, rdi, top, interference);
      SaveContext();
      forall i | 0 <= i < mem.Length {
        mem[i] := interference[i];
      }
      assert mem[..] == interference;
      regs := scratch;
      LoadContext();
      Ret();
    }
  }
}
