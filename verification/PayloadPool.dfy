/** The fixed pool of reference-counted frame descriptors (payload_pool.c). */
module PayloadPool {
  const BLOCKS: nat := 8

  datatype Payload = Payload(framePtr: nat, frameSize: nat, sequence: nat, sourceId: nat)

  datatype Block = Block(payload: Payload, inUse: bool, refCount: nat)

  const ZERO_PAYLOAD := Payload(0, 0, 0, 0)
  const ZERO_BLOCK := Block(ZERO_PAYLOAD, false, 0)

  /** A descriptor pointer: null, the payload of some block, or an address outside the pool. */
  datatype Pointer = Null | Descriptor(slot: nat) | Foreign(address: nat)

  function IndexOf(p: Pointer): int {
    if p.Descriptor? && p.slot < BLOCKS then p.slot else -1
  }

  /** True of the pointers whose block exists and is allocated. */
  predicate Owned(blocks: seq<Block>, p: Pointer)
    requires |blocks| == BLOCKS
  {
    IndexOf(p) >= 0 && blocks[IndexOf(p)].inUse
  }

  function FirstFree(blocks: seq<Block>): (i: nat)
    ensures i <= |blocks|
    ensures i < |blocks| ==> !blocks[i].inUse
    ensures forall k :: 0 <= k < i ==> blocks[k].inUse
  {
    if blocks == [] || !blocks[0].inUse then 0 else 1 + FirstFree(blocks[1..])
  }

  function FreeCount(blocks: seq<Block>): nat {
    if blocks == [] then 0 else (if blocks[0].inUse then 0 else 1) + FreeCount(blocks[1..])
  }

  // ---- What each operation does to the blocks ----

  function AfterAlloc(blocks: seq<Block>): seq<Block> {
    var i := FirstFree(blocks);
    if i < |blocks| then blocks[i := Block(ZERO_PAYLOAD, true, 1)] else blocks
  }

  function AfterAddRef(blocks: seq<Block>, p: Pointer): seq<Block>
    requires |blocks| == BLOCKS
  {
    if Owned(blocks, p)
    then blocks[IndexOf(p) := blocks[IndexOf(p)].(refCount := (blocks[IndexOf(p)].refCount + 1) % 256)]
    else blocks
  }

  function AfterSetRefCount(blocks: seq<Block>, p: Pointer, n: nat): seq<Block>
    requires |blocks| == BLOCKS
  {
    if n != 0 && Owned(blocks, p)
    then blocks[IndexOf(p) := blocks[IndexOf(p)].(refCount := n)]
    else blocks
  }

  function AfterFree(blocks: seq<Block>, p: Pointer): (r: seq<Block>)
    requires |blocks| == BLOCKS
    ensures |r| == BLOCKS
  {
    if !Owned(blocks, p) then blocks
    else
      var b := blocks[IndexOf(p)];
      blocks[IndexOf(p) := if b.refCount > 1 then b.(refCount := b.refCount - 1) else ZERO_BLOCK]
  }

  // ---- The pool itself ----

  class Pool {
    const blocks: array<Block>

    ghost predicate Valid()
      reads this, blocks
    {
      blocks.Length == BLOCKS
      && forall i :: 0 <= i < BLOCKS ==> blocks[i].refCount < 256 && (!blocks[i].inUse ==> blocks[i] == ZERO_BLOCK)
    }

    constructor ()
      ensures Valid() && fresh(blocks)
      ensures blocks[..] == seq(BLOCKS, i => ZERO_BLOCK)
    {
      blocks := new Block[BLOCKS](i => ZERO_BLOCK);
    }

    method BlockIndexFromPayload(p: Pointer) returns (index: int)
      ensures index == IndexOf(p)
    {
      var i := 0;
      while i < BLOCKS
        invariant i <= BLOCKS
        invariant forall k: nat :: k < i ==> p != Descriptor(k)
      {
        if p == Descriptor(i) {
          return i;
        }
        i := i + 1;
      }
      return -1;
    }

    method Alloc() returns (result: Pointer)
      requires Valid()
      modifies blocks
      ensures Valid() && blocks[..] == AfterAlloc(old(blocks[..]))
      ensures result == if FirstFree(old(blocks[..])) < BLOCKS
                        then Descriptor(FirstFree(old(blocks[..]))) else Null
      ensures result == Null <==> forall i :: 0 <= i < 8 ==> old(blocks[..])[i].inUse
      ensures result != Null ==>
                && result.Descriptor? && result.slot < 8 && !old(blocks[..])[result.slot].inUse
                && (forall i :: 0 <= i < result.slot ==> old(blocks[..])[i].inUse)
                && blocks[..] == old(blocks[..])[result.slot := Block(Payload(0, 0, 0, 0), true, 1)]
    {
      result := Null;
      var i := 0;
      while i < BLOCKS
        invariant i <= BLOCKS && result == Null
        invariant blocks[..] == old(blocks[..])
        invariant forall k :: 0 <= k < i ==> blocks[k].inUse
      {
        if !blocks[i].inUse {
          FirstFreeIs(blocks[..], i);
          blocks[i] := Block(ZERO_PAYLOAD, true, 1);
          return Descriptor(i);
        }
        i := i + 1;
      }
    }

    method AddRef(p: Pointer)
      requires Valid()
      modifies blocks
      ensures Valid() && blocks[..] == AfterAddRef(old(blocks[..]), p)
      ensures forall i :: 0 <= i < 8 ==>
                var b := old(blocks[..])[i];
                blocks[i] == if p == Descriptor(i) && b.inUse then b.(refCount := (b.refCount + 1) % 256) else b
    {
      if p == Null {
        return;
      }
      var index := BlockIndexFromPayload(p);
      if index >= 0 && blocks[index].inUse {
        blocks[index] := blocks[index].(refCount := (blocks[index].refCount + 1) % 256);
      }
    }

    method SetRefCount(p: Pointer, refCount: nat)
      requires Valid() && refCount < 256
      modifies blocks
      ensures Valid() && blocks[..] == AfterSetRefCount(old(blocks[..]), p, refCount)
      ensures forall i :: 0 <= i < 8 ==>
                var b := old(blocks[..])[i];
                blocks[i] == if p == Descriptor(i) && b.inUse && refCount != 0 then b.(refCount := refCount) else b
    {
      if p == Null || refCount == 0 {
        return;
      }
      var index := BlockIndexFromPayload(p);
      if index >= 0 && blocks[index].inUse {
        blocks[index] := blocks[index].(refCount := refCount);
      }
    }

    method Free(p: Pointer)
      requires Valid()
      modifies blocks
      ensures Valid() && blocks[..] == AfterFree(old(blocks[..]), p)
      ensures forall i :: 0 <= i < 8 ==>
                var b := old(blocks[..])[i];
                blocks[i] == if p == Descriptor(i) && b.inUse then
                               (if b.refCount > 1 then b.(refCount := b.refCount - 1)
                                else Block(Payload(0, 0, 0, 0), false, 0))
                             else b
    {
      if p == Null {
        return;
      }
      var index := BlockIndexFromPayload(p);
      if index >= 0 && blocks[index].inUse {
        if blocks[index].refCount > 1 {
          blocks[index] := blocks[index].(refCount := blocks[index].refCount - 1);
        } else {
          blocks[index] := ZERO_BLOCK;
        }
      }
    }

    method GetFreeCount() returns (freeCount: nat)
      requires Valid()
      ensures freeCount == FreeCount(blocks[..])
    {
      freeCount := 0;
      var i := 0;
      while i < BLOCKS
        invariant i <= BLOCKS
        invariant freeCount == FreeCount(blocks[..i])
      {
        FreeCountAppend(blocks[..i], blocks[i]);
        assert blocks[..i + 1] == blocks[..i] + [blocks[i]];
        if !blocks[i].inUse {
          freeCount := freeCount + 1;
        }
        i := i + 1;
      }
      assert blocks[..i] == blocks[..];
    }
  }

  // ---- What the operations mean together ----

  lemma {:induction false} FirstFreeIs(blocks: seq<Block>, i: nat)
    requires i < |blocks| && !blocks[i].inUse
    requires forall k :: 0 <= k < i ==> blocks[k].inUse
    ensures FirstFree(blocks) == i
  {
    if i > 0 {
      FirstFreeIs(blocks[1..], i - 1);
    }
  }

  lemma {:induction false} FreeCountAppend(blocks: seq<Block>, b: Block)
    ensures FreeCount(blocks + [b]) == FreeCount(blocks) + (if b.inUse then 0 else 1)
  {
    if blocks == [] {
      assert blocks + [b] == [b];
    } else {
      assert (blocks + [b])[1..] == blocks[1..] + [b];
      FreeCountAppend(blocks[1..], b);
    }
  }

  lemma {:induction false} FreeCountUpdate(blocks: seq<Block>, i: nat, b: Block)
    requires i < |blocks|
    ensures FreeCount(blocks[i := b]) + (if blocks[i].inUse then 0 else 1)
         == FreeCount(blocks) + (if b.inUse then 0 else 1)
  {
    if i == 0 {
      assert blocks[0 := b][1..] == blocks[1..];
    } else {
      assert blocks[i := b][1..] == blocks[1..][i - 1 := b];
      FreeCountUpdate(blocks[1..], i - 1, b);
    }
  }

  lemma {:induction false} AllFree(blocks: seq<Block>)
    ensures FreeCount(blocks) <= |blocks|
    ensures FreeCount(blocks) == |blocks| <==> forall i :: 0 <= i < |blocks| ==> !blocks[i].inUse
  {
    if blocks != [] {
      AllFree(blocks[1..]);
      if forall i :: 0 <= i < |blocks[1..]| ==> !blocks[1..][i].inUse {
        assert forall i :: 1 <= i < |blocks| ==> blocks[i] == blocks[1..][i - 1];
      } else {
        var k :| 0 <= k < |blocks[1..]| && blocks[1..][k].inUse;
        assert blocks[k + 1].inUse;
      }
    }
  }

  /** An allocation takes exactly one block out of the free ones, and fails exactly when there is none. */
  lemma AllocTakesOne(blocks: seq<Block>)
    ensures FirstFree(blocks) < |blocks| <==> FreeCount(blocks) > 0
    ensures FreeCount(AfterAlloc(blocks)) == if FreeCount(blocks) > 0 then FreeCount(blocks) - 1 else 0
  {
    NoneFree(blocks);
    var i := FirstFree(blocks);
    if i < |blocks| {
      FreeCountUpdate(blocks, i, Block(ZERO_PAYLOAD, true, 1));
    }
  }

  lemma {:induction false} NoneFree(blocks: seq<Block>)
    ensures FreeCount(blocks) == 0 <==> FirstFree(blocks) == |blocks|
  {
    if blocks != [] {
      NoneFree(blocks[1..]);
    }
  }

  /** Pool_Free undoes Pool_AddRef exactly when the 8-bit counter neither wraps nor starts at zero. */
  lemma FreeUndoesAddRef(blocks: seq<Block>, p: Pointer)
    requires |blocks| == BLOCKS && Owned(blocks, p) && blocks[IndexOf(p)].refCount < 256
    ensures AfterFree(AfterAddRef(blocks, p), p) == blocks <==> 1 <= blocks[IndexOf(p)].refCount <= 254
  {
    var i := IndexOf(p);
    var r := AfterFree(AfterAddRef(blocks, p), p);
    if 1 <= blocks[i].refCount <= 254 {
      assert r == blocks;
    } else {
      assert r[i] == ZERO_BLOCK;
    }
  }

  lemma CountedAlloc(blocks: seq<Block>, i: nat)
    requires |blocks| == BLOCKS && i == FirstFree(blocks) < BLOCKS
    ensures AfterSetRefCount(AfterAlloc(blocks), Descriptor(i), 255) == blocks[i := Block(ZERO_PAYLOAD, true, 255)]
  {
    CountedTo(blocks[i := Block(ZERO_PAYLOAD, true, 1)], i);
  }

  lemma CountedTo(blocks: seq<Block>, i: nat)
    requires |blocks| == BLOCKS && i < BLOCKS && blocks[i].inUse
    ensures AfterSetRefCount(blocks, Descriptor(i), 255) == blocks[i := blocks[i].(refCount := 255)]
  {
  }

  lemma WrapAndWipe(blocks: seq<Block>, i: nat)
    requires |blocks| == BLOCKS && i < BLOCKS && blocks[i].inUse && blocks[i].refCount == 255
    ensures AfterFree(AfterAddRef(blocks, Descriptor(i)), Descriptor(i)) == blocks[i := ZERO_BLOCK]
  {
    var wrapped := AfterAddRef(blocks, Descriptor(i));
    assert wrapped == blocks[i := blocks[i].(refCount := 0)];
    assert AfterFree(wrapped, Descriptor(i)) == wrapped[i := ZERO_BLOCK];
  }

  /** A run of the API in which it does not: a block counted to 255 and referenced once more is wiped by
      the next free, with 255 references outstanding. */
  lemma AddRefWrapsAndFreeWipes(blocks: seq<Block>)
    requires |blocks| == BLOCKS && FirstFree(blocks) < BLOCKS && blocks[FirstFree(blocks)] == ZERO_BLOCK
    ensures var p := Descriptor(FirstFree(blocks));
            var counted := AfterSetRefCount(AfterAlloc(blocks), p, 255);
            && counted[p.slot].inUse && counted[p.slot].refCount == 255
            && AfterFree(AfterAddRef(counted, p), p) == blocks
  {
    var i := FirstFree(blocks);
    CountedAlloc(blocks, i);
    var counted := blocks[i := Block(ZERO_PAYLOAD, true, 255)];
    WrapAndWipe(counted, i);
    assert counted[i := ZERO_BLOCK] == blocks;
  }

  /** `k` calls of Pool_Free on the same pointer. */
  function AfterFrees(blocks: seq<Block>, p: Pointer, k: nat): (r: seq<Block>)
    requires |blocks| == BLOCKS
    ensures |r| == BLOCKS
    decreases k
  {
    if k == 0 then blocks else AfterFrees(AfterFree(blocks, p), p, k - 1)
  }

  /** A block counted to `n` survives every free but the last with its payload intact, is wiped by
      the n-th, and no other block is touched however many times it is freed. */
  lemma {:induction false} CountedFrees(blocks: seq<Block>, p: Pointer, k: nat)
    requires |blocks| == BLOCKS && Owned(blocks, p) && blocks[IndexOf(p)].refCount > 0
    ensures AfterFrees(blocks, p, k)
         == blocks[IndexOf(p) := if k < blocks[IndexOf(p)].refCount
                                 then blocks[IndexOf(p)].(refCount := blocks[IndexOf(p)].refCount - k)
                                 else ZERO_BLOCK]
    decreases k
  {
    var i := IndexOf(p);
    if k > 0 {
      var next := AfterFree(blocks, p);
      if blocks[i].refCount > 1 {
        CountedFrees(next, p, k - 1);
      } else {
        FreeingNothing(next, p, k - 1);
      }
    }
  }

  lemma {:induction false} FreeingNothing(blocks: seq<Block>, p: Pointer, k: nat)
    requires |blocks| == BLOCKS && !Owned(blocks, p)
    ensures AfterFrees(blocks, p, k) == blocks
  {
    if k > 0 {
      FreeingNothing(blocks, p, k - 1);
    }
  }
}
