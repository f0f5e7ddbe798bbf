/** Stacks and coroutines as objects (coroutine.h): a coroutine that does not own its shared stack keeps a copy. */
module Stacks {
  import opened Common
  import opened Context
  import P = Pool

  /** malloc and free of stack copies: blocks are the allocations not freed yet, each with the coroutine it was
      made for. A block is filled once and then only read. */
  class Heap {
    var next: nat
    ghost var blocks: map<nat, Coroutine>

    ghost predicate Valid()
      reads this
    {
      forall b :: b in blocks ==> b < next
    }

    constructor ()
      ensures Valid() && blocks == map[]
    {
      next := 0;
      blocks := map[];
    }

    method Malloc(ghost c: Coroutine) returns (b: nat)
      requires Valid()
      modifies this
      ensures Valid() && b == old(next) && b !in old(blocks) && blocks == old(blocks)[b := c]
    {
      b := next;
      next := next + 1;
      blocks := blocks[b := c];
    }

    method Free(b: nat)
      requires Valid() && b in blocks
      modifies this
      ensures Valid() && blocks == old(blocks) - {b} && next == old(next)
    {
      blocks := blocks - {b};
    }
  }

  /** co_memcpy into memory: one byte at a time, upwards. */
  method CoMemcpy(dst: array<byte>, at: nat, src: seq<byte>)
    requires at + |src| <= dst.Length
    modifies dst
    ensures dst[..] == Splice(old(dst[..]), at, src)
  {
    for i := 0 to |src|
      invariant dst[..] == Splice(old(dst[..]), at, src[..i])
    {
      SpliceNext(old(dst[..]), at, src, i);
      dst[at + i] := src[i];
    }
    assert src[..|src|] == src;
  }

  lemma SpliceNext(s: seq<byte>, at: nat, src: seq<byte>, i: nat)
    requires at + |src| <= |s| && i < |src|
    ensures Splice(s, at, src[..i])[at + i := src[i]] == Splice(s, at, src[..i + 1])
  {
    assert src[..i + 1] == src[..i] + [src[i]];
  }

  class CoStack {
    const bytes: array<byte>             // from stack_bottom up to stack_top
    ghost var madeFor: Option<Coroutine> // None for the shared stacks of the pool
    var usedBy: Option<Coroutine>

    constructor (size: nat)
      ensures fresh(bytes) && bytes.Length == size && madeFor == None && usedBy == None
    {
      bytes := new byte[size];
      madeFor := None;
      usedBy := None;
    }

    method SetExitGuard()
      requires bytes.Length >= 8
      modifies bytes
      ensures bytes[..] == Splice(old(bytes[..]), bytes.Length - 8, EXIT_GUARD)
    {
      CoMemcpy(bytes, bytes.Length - 8, EXIT_GUARD);
    }
  }

  class Coroutine {
    const shared: bool
    const stack: CoStack
    var ctx: Context
    var copy: Option<P.Block<nat>>

    /** The constructor and set_stack; a shared coroutine goes to a stack of the pool, or the source aborts. */
    constructor (shared: bool, stack: CoStack, heap: Heap)
      requires heap.Valid() && stack.bytes.Length >= 8
      requires shared ==> stack.madeFor == None
      modifies heap, stack`madeFor, stack.bytes
      ensures heap.Valid() && this.shared == shared && this.stack == stack
      ensures ctx == FreshContext(stack.bytes.Length)
      ensures ctx.rip == CO_LAUNCH && ctx.rsp + 8 == stack.bytes.Length && ctx.mxcsr == 0x1f80 && ctx.x87 == 0x37f
      ensures shared ==>
        && copy == Some(P.Block(old(heap.next), EXIT_GUARD))
        && heap.blocks == old(heap.blocks)[old(heap.next) := this]
        && stack.bytes[..] == old(stack.bytes[..]) && stack.madeFor == None
      ensures !shared ==>
        && copy == None
        && heap.blocks == old(heap.blocks)
        && stack.bytes[..] == Splice(old(stack.bytes[..]), stack.bytes.Length - 8, EXIT_GUARD)
        && stack.madeFor == Some(this)
    {
      this.shared := shared;
      this.stack := stack;
      ctx := FreshContext(stack.bytes.Length);
      copy := None;
      new;
      if shared {
        var block := heap.Malloc(this);
        copy := Some(P.Block(block, EXIT_GUARD));
      } else {
        stack.SetExitGuard();
        stack.madeFor := Some(this);
      }
    }

    predicate InStack()
      reads this, stack
    {
      !shared || stack.usedBy == Some(this)
    }

    method SaveStack(heap: Heap)
      requires heap.Valid() && ctx.rsp <= stack.bytes.Length
      modifies this`copy, heap
      ensures heap.Valid() && heap.blocks == old(heap.blocks)[old(heap.next) := this]
      ensures copy == Some(P.Block(old(heap.next), stack.bytes[ctx.rsp..]))
    {
      var block := heap.Malloc(this);
      copy := Some(P.Block(block, stack.bytes[ctx.rsp..]));
    }

    method RestoreStack(heap: Heap)
      requires heap.Valid() && copy.Some? && copy.value.id in heap.blocks
      requires |copy.value.bytes| <= stack.bytes.Length
      modifies this`copy, stack.bytes, stack`usedBy, heap
      ensures heap.Valid() && heap.blocks == old(heap.blocks) - {old(copy.value.id)} && heap.next == old(heap.next)
      ensures stack.bytes[..] ==
              Splice(old(stack.bytes[..]), stack.bytes.Length - |old(copy.value.bytes)|, old(copy.value.bytes))
      ensures copy == None && stack.usedBy == Some(this)
    {
      CoMemcpy(stack.bytes, stack.bytes.Length - |copy.value.bytes|, copy.value.bytes);
      heap.Free(copy.value.id);
      copy := None;
      stack.usedBy := Some(this);
    }

    /** The destructor; a private stack goes with its coroutine. */
    method Delete(heap: Heap)
      requires heap.Valid() && (copy.Some? ==> copy.value.id in heap.blocks)
      requires !shared ==> copy == None
      modifies stack`usedBy, heap
      ensures heap.Valid() && heap.next == old(heap.next)
      ensures heap.blocks == if copy.Some? then old(heap.blocks) - {copy.value.id} else old(heap.blocks)
      ensures stack.usedBy == if shared && old(stack.usedBy) == Some(this) then None else old(stack.usedBy)
    {
      if shared {
        if stack.usedBy == Some(this) {
          stack.usedBy := None;
        }
        if copy.Some? {
          heap.Free(copy.value.id);
        }
      }
    }
  }
}
