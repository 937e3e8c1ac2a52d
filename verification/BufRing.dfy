/** The provided-buffer ring in memory: slots shared with the kernel, written in place. */
module BufRing {
  import opened Bits
  import opened RingSpec
  import opened BufPool

  class BufRing {
    var br: array<Slot>
    var tail: nat
    var bufs: array<Iovec>
    const entrySize: nat

    function Value(): Ring
      reads this, br
    {
      Ring(br[..], tail)
    }

    ghost predicate Valid()
      reads this, br, bufs
    {
      && WellFormed(Value())
      && bufs.Length == br.Length
      && (forall i :: 0 <= i < bufs.Length ==> bufs[i] == Iovec(BufferOf(i, entrySize).addr, entrySize))
    }

    /** The buffers tile the memory the kernel stores messages in. */
    lemma Laid(size: nat)
      requires Valid() && size == bufs.Length * entrySize
      ensures Tiles(bufs[..], size)
    {
      SlicesTile(bufs[..], entrySize, size);
    }

    /** The fill loop adds buffer i at offset i; one advance then publishes them all. */
    constructor Init(entries: nat, entrySize: nat)
      requires Entries(entries)
      ensures Valid() && fresh(br) && fresh(bufs)
      ensures this.entrySize == entrySize
      ensures Value() == InitRing(entries, entrySize)
      ensures bufs.Length == entries && Tiles(bufs[..], entries * entrySize)
      ensures forall i :: 0 <= i < entries ==>
                && bufs[i].base == i * entrySize && bufs[i].len == entrySize
                && br[i] == Slot(i * entrySize, entrySize, i)
    {
      this.entrySize := entrySize;
      br := new Slot[entries](_ => Slot(0, 0, 0));
      bufs := new Iovec[entries](_ => Iovec(0, 0));
      tail := 0;
      new;
      var mask := entries - 1;
      for i := 0 to entries
        invariant br.Length == bufs.Length == entries && tail == 0
        invariant fresh(br) && fresh(bufs)
        invariant forall k :: 0 <= k < i ==> bufs[k] == Iovec(BufferOf(k, entrySize).addr, entrySize)
        invariant forall k :: 0 <= k < i ==> br[k] == BufferOf(k, entrySize)
      {
        bufs[i] := Iovec(BufferOf(i, entrySize).addr, entrySize);
        ModuloUnique(i, entries, 0, i);
        Add(bufs[i].base, bufs[i].len, i, mask, i);
      }
      Advance(entries);
      Laid(entries * entrySize);
      assert Value().slots == InitRing(entries, entrySize).slots;
    }

    method Add(addr: nat, len: nat, bid: nat, mask: nat, off: nat)
      requires Entries(br.Length) && mask == br.Length - 1
      modifies br
      ensures Value() == RingSpec.Add(old(Value()), Slot(addr, len, bid), off)
    {
      ghost var k: nat :| br.Length == Pow2(k);
      MaskIsModulo(tail + off, k);
      br[BitAnd(tail + off, mask)] := Slot(addr, len, bid);
    }

    method Advance(count: nat)
      modifies this`tail
      ensures Value() == RingSpec.Advance(old(Value()), count)
    {
      tail := (tail + count) % U16;
    }
  }
}
