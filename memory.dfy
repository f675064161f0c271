/**
 * The buffers the receive callback owns: the heap copy of the request
 * (`malloc` / `free`) and the received pbuf (`pbuf_free`). Every
 * allocation and release is recorded in a ledger; allocation always succeeds.
 */
module Memory {
  datatype Event =
    | Malloc(addr: nat, size: nat)   // malloc(size) returned block `addr`
    | Free(addr: nat)                // free(block `addr`)
    | PbufFree(id: nat)              // pbuf_free(pbuf `id`)

  /** How many times block `a` was allocated. */
  function Mallocs(l: seq<Event>, a: nat): nat
  {
    if l == [] then 0
    else Mallocs(l[..|l| - 1], a) + (if l[|l| - 1].Malloc? && l[|l| - 1].addr == a then 1 else 0)
  }

  /** How many times block `a` was freed. */
  function Frees(l: seq<Event>, a: nat): nat
  {
    if l == [] then 0
    else Frees(l[..|l| - 1], a) + (if l[|l| - 1] == Free(a) then 1 else 0)
  }

  /** How many times pbuf `id` was released. */
  function PbufFrees(l: seq<Event>, id: nat): nat
  {
    if l == [] then 0
    else PbufFrees(l[..|l| - 1], id) + (if l[|l| - 1] == PbufFree(id) then 1 else 0)
  }

  /**
   * Between callbacks: every block was allocated at most once and freed
   * exactly as often as it was allocated (no leak, no double free, no free of
   * a block never allocated); blocks from `next` on are unused; no pbuf was
   * released twice.
   */
  ghost predicate Balanced(l: seq<Event>, next: nat)
  {
    (forall a: nat :: Mallocs(l, a) <= 1 && Frees(l, a) == Mallocs(l, a))
    && (forall a: nat :: a >= next ==> Mallocs(l, a) == 0)
    && (forall id: nat :: PbufFrees(l, id) <= 1)
  }

  /** The effect on the counts of recording one more event. */
  lemma CountsSnoc(l: seq<Event>, e: Event, a: nat, id: nat)
    ensures Mallocs(l + [e], a) == Mallocs(l, a) + (if e.Malloc? && e.addr == a then 1 else 0)
    ensures Frees(l + [e], a) == Frees(l, a) + (if e == Free(a) then 1 else 0)
    ensures PbufFrees(l + [e], id) == PbufFrees(l, id) + (if e == PbufFree(id) then 1 else 0)
  {
    assert (l + [e])[..|l|] == l;
  }

  /**
   * One data event of the callback -- allocate the fresh block `next`, free
   * it, release a live pbuf -- is legal at each step (the block is live when
   * freed, the pbuf not yet released) and leaves the ledger balanced.
   */
  lemma {:induction false} DataEventBalanced(l: seq<Event>, next: nat, size: nat, id: nat)
    requires Balanced(l, next)
    requires PbufFrees(l, id) == 0
    ensures Mallocs(l + [Malloc(next, size)], next) == 1 && Frees(l + [Malloc(next, size)], next) == 0
    ensures PbufFrees(l + [Malloc(next, size)] + [Free(next)], id) == 0
    ensures Balanced(l + [Malloc(next, size)] + [Free(next)] + [PbufFree(id)], next + 1)
  {
    var l1 := l + [Malloc(next, size)];
    var l2 := l1 + [Free(next)];
    var l3 := l2 + [PbufFree(id)];
    CountsSnoc(l, Malloc(next, size), next, id);
    CountsSnoc(l1, Free(next), next, id);
    forall a: nat ensures Mallocs(l3, a) <= 1 && Frees(l3, a) == Mallocs(l3, a)
      && (a >= next + 1 ==> Mallocs(l3, a) == 0)
    {
      CountsSnoc(l, Malloc(next, size), a, id);
      CountsSnoc(l1, Free(next), a, id);
      CountsSnoc(l2, PbufFree(id), a, id);
    }
    forall i: nat ensures PbufFrees(l3, i) <= 1 {
      CountsSnoc(l, Malloc(next, size), next, i);
      CountsSnoc(l1, Free(next), next, i);
      CountsSnoc(l2, PbufFree(id), next, i);
    }
  }

  /** The C heap together with the pbuf pool, as far as the callback touches them. */
  class Heap {
    var ledger: seq<Event>
    var next: nat   // the block the next malloc returns

    ghost predicate Valid()
      reads this
    {
      Balanced(ledger, next)
    }

    constructor ()
      ensures Valid() && ledger == [] && next == 0
    {
      ledger := [];
      next := 0;
    }

    /** `malloc(size)`: a fresh block of `size` bytes (contents unspecified). */
    method Malloc(size: nat) returns (addr: nat, block: array<char>)
      modifies this
      ensures fresh(block) && block.Length == size
      ensures addr == old(next) && next == old(next) + 1
      ensures ledger == old(ledger) + [Event.Malloc(addr, size)]
    {
      addr := next;
      block := new char[size];
      next := next + 1;
      ledger := ledger + [Event.Malloc(addr, size)];
    }

    /** `free(addr)`: the block must be allocated and not yet freed. */
    method Free(addr: nat)
      requires Mallocs(ledger, addr) == 1 && Frees(ledger, addr) == 0
      modifies this
      ensures next == old(next)
      ensures ledger == old(ledger) + [Event.Free(addr)]
    {
      ledger := ledger + [Event.Free(addr)];
    }

    /** `pbuf_free(p)`: the pbuf must not have been released already. */
    method PbufFree(id: nat)
      requires PbufFrees(ledger, id) == 0
      modifies this
      ensures next == old(next)
      ensures ledger == old(ledger) + [Event.PbufFree(id)]
    {
      ledger := ledger + [Event.PbufFree(id)];
    }
  }
}
