/** The registered-buffer pool: a free list threaded through a flat node array. */
module BufPool {
  import opened Bits
  import opened Seqs
  import opened Geometry

  /** A `struct bufpool_freebuf_t *`: null, or a node of the flat array. */
  datatype Ptr = Null | Node(i: nat)

  datatype FreeBuf = FreeBuf(bid: nat, iov: nat, next: Ptr)

  datatype Iovec = Iovec(base: nat, len: nat)

  /** The slice of buffer `i`. */
  function IovecOf(i: nat, bufSize: nat): Iovec {
    Iovec(i * bufSize, bufSize)
  }

  /** The iovec describes this byte of the allocation. */
  ghost predicate Covers(v: Iovec, byte: nat) {
    v.base <= byte < v.base + v.len
  }

  ghost predicate Covered(vecs: seq<Iovec>, byte: nat) {
    exists k :: 0 <= k < |vecs| && Covers(vecs[k], byte)
  }

  /** The iovecs cut an allocation of `size` bytes into pieces: none reaches outside, and each byte lies in
      exactly one. */
  ghost predicate Tiles(vecs: seq<Iovec>, size: nat) {
    && (forall k :: 0 <= k < |vecs| ==> vecs[k].base + vecs[k].len <= size)
    && (forall byte: nat :: byte < size ==> Covered(vecs, byte))
    && (forall byte: nat, j, k ::
          0 <= j < |vecs| && 0 <= k < |vecs| && Covers(vecs[j], byte) && Covers(vecs[k], byte) ==> j == k)
  }

  /** Equal slices in order tile the allocation. */
  lemma SlicesTile(vecs: seq<Iovec>, w: nat, size: nat)
    requires size == |vecs| * w && forall k :: 0 <= k < |vecs| ==> vecs[k] == Iovec(k * w, w)
    ensures Tiles(vecs, size)
  {
    forall k | 0 <= k < |vecs|
      ensures vecs[k].base + vecs[k].len <= size
    {
      SliceBounds(k, w, |vecs|);
    }
    forall byte: nat | byte < size
      ensures Covered(vecs, byte)
    {
      SliceOf(byte, w, |vecs|);
      SliceBounds(byte / w, w, |vecs|);
      assert Covers(vecs[byte / w], byte);
    }
    forall byte: nat, j, k | 0 <= j < |vecs| && 0 <= k < |vecs| && Covers(vecs[j], byte) && Covers(vecs[k], byte)
      ensures j == k
    {
      SliceBounds(j, w, |vecs|);
      SliceBounds(k, w, |vecs|);
      SliceIsUnique(byte, j, k, w);
    }
  }

  // ---- the `next` chain as a relation between a node array and a sequence ----

  /** Following `next` from `p` visits exactly `s`, inside the array, and then reaches null. */
  ghost predicate Chain(nodes: seq<FreeBuf>, p: Ptr, s: seq<nat>)
    decreases |s|
  {
    if s == [] then p == Null
    else p == Node(s[0]) && s[0] < |nodes| && Chain(nodes, nodes[s[0]].next, s[1..])
  }

  lemma {:induction false} ChainIsUnique(nodes: seq<FreeBuf>, p: Ptr, s: seq<nat>, t: seq<nat>)
    requires Chain(nodes, p, s) && Chain(nodes, p, t)
    ensures s == t
    decreases |s|
  {
    if s != [] {
      ChainIsUnique(nodes, nodes[s[0]].next, s[1..], t[1..]);
      assert s == [s[0]] + s[1..] && t == [t[0]] + t[1..];
    }
  }

  lemma {:induction false} ChainSuffix(nodes: seq<FreeBuf>, p: Ptr, s: seq<nat>, k: nat)
    requires Chain(nodes, p, s) && k < |s|
    ensures s[k] < |nodes| && Chain(nodes, Node(s[k]), s[k..])
    decreases |s|
  {
    if k > 0 {
      ChainSuffix(nodes, nodes[s[0]].next, s[1..], k - 1);
      assert s[1..][k - 1..] == s[k..];
    } else {
      assert s[0..] == s;
    }
  }

  lemma ChainsStartApart(nodes: seq<FreeBuf>, a: nat, s: seq<nat>, b: nat, t: seq<nat>)
    requires Chain(nodes, Node(a), s) && Chain(nodes, Node(b), t) && |s| != |t|
    ensures a != b
  {
    if a == b {
      ChainIsUnique(nodes, Node(a), s, t);
    }
  }

  /** A null-terminated chain is acyclic: it visits no node twice. */
  lemma ChainIsDistinct(nodes: seq<FreeBuf>, p: Ptr, s: seq<nat>)
    requires Chain(nodes, p, s)
    ensures Distinct(s)
  {
    forall i, j | 0 <= i < j < |s|
      ensures s[i] != s[j]
    {
      ChainSuffix(nodes, p, s, i);
      ChainSuffix(nodes, p, s, j);
      ChainsStartApart(nodes, s[i], s[i..], s[j], s[j..]);
    }
  }

  lemma {:induction false} ChainFrame(nodes: seq<FreeBuf>, nodes': seq<FreeBuf>, p: Ptr, s: seq<nat>)
    requires Chain(nodes, p, s) && |nodes| <= |nodes'|
    requires forall i :: 0 <= i < |s| && s[i] < |nodes| ==> nodes'[s[i]].next == nodes[s[i]].next
    ensures Chain(nodes', p, s)
    decreases |s|
  {
    if s != [] {
      assert forall i :: 0 <= i < |s[1..]| ==> s[1..][i] == s[i + 1];
      ChainFrame(nodes, nodes', nodes[s[0]].next, s[1..]);
    }
  }

  /** The array after `put(bid)`: node `bid` points at the old head. */
  function PutNode(nodes: seq<FreeBuf>, head: Ptr, bid: nat): (r: seq<FreeBuf>)
    requires bid < |nodes|
    ensures |r| == |nodes|
  {
    nodes[bid := nodes[bid].(next := head)]
  }

  lemma PutExtends(nodes: seq<FreeBuf>, head: Ptr, s: seq<nat>, bid: nat)
    requires bid < |nodes| && Chain(nodes, head, s) && bid !in s
    ensures Chain(PutNode(nodes, head, bid), Node(bid), [bid] + s)
  {
    ChainFrame(nodes, PutNode(nodes, head, bid), head, s);
    assert ([bid] + s)[1..] == s;
  }

  /** After a put of a listed bid, following `next` from any listed node up to that bid
      walks the old list and then starts over at the head: there is no end. */
  lemma {:induction false} PutListedHasNoEnd(nodes: seq<FreeBuf>, head: Ptr, s: seq<nat>, bid: nat, p: Ptr, u: seq<nat>,
                                             t: seq<nat>)
    requires bid < |nodes| && Chain(nodes, head, s) && bid in s
    requires Chain(nodes, p, u) && bid in u
    ensures !Chain(PutNode(nodes, head, bid), p, t)
    decreases |t|, |u|
  {
    var nodes' := PutNode(nodes, head, bid);
    if t != [] && t[0] < |nodes| && p == Node(t[0]) {
      if t[0] == bid {
        PutListedHasNoEnd(nodes, head, s, bid, head, s, t[1..]);
      } else {
        assert u[0] == t[0] && u == [u[0]] + u[1..];
        PutListedHasNoEnd(nodes, head, s, bid, nodes[u[0]].next, u[1..], t[1..]);
      }
    }
  }

  /** The nodes reached from `p` form a null-terminated list. */
  ghost predicate IsList(nodes: seq<FreeBuf>, p: Ptr) {
    exists t: seq<nat> :: Chain(nodes, p, t)
  }

  lemma ChainIsList(nodes: seq<FreeBuf>, p: Ptr, s: seq<nat>)
    requires Chain(nodes, p, s)
    ensures IsList(nodes, p)
  {
  }

  /** `put` checks nothing: it leaves a null-terminated list exactly when the bid was not on it. */
  lemma PutKeepsListIff(nodes: seq<FreeBuf>, head: Ptr, s: seq<nat>, bid: nat)
    requires bid < |nodes| && Chain(nodes, head, s)
    ensures IsList(PutNode(nodes, head, bid), Node(bid)) <==> bid !in s
  {
    var nodes' := PutNode(nodes, head, bid);
    if bid !in s {
      PutExtends(nodes, head, s, bid);
      ChainIsList(nodes', Node(bid), [bid] + s);
    } else if IsList(nodes', Node(bid)) {
      var t: seq<nat> :| Chain(nodes', Node(bid), t);
      PutListedHasNoEnd(nodes, head, s, bid, head, s, t[1..]);
    }
  }

  /** One turn of the fill loop: node i goes in front of the list threaded so far. */
  method ThreadNode(nodes: array<FreeBuf>, i: nat, head: Ptr, ghost listed: seq<nat>)
    requires i < nodes.Length && Chain(nodes[..], head, listed) && i !in listed
    modifies nodes
    ensures nodes[i] == FreeBuf(i % U16, i, head)
    ensures forall k :: 0 <= k < nodes.Length && k != i ==> nodes[k] == old(nodes[k])
    ensures Chain(nodes[..], Node(i), [i] + listed)
  {
    ghost var before := nodes[..];
    nodes[i] := FreeBuf(i % U16, i, head);
    ChainFrame(before, nodes[..], head, listed);
    assert ([i] + listed)[1..] == listed;
  }

  /** The fill loop: node i keeps bid i and slice i, and the list runs from the last node down. */
  method FillNodes(vecs: array<Iovec>, nodes: array<FreeBuf>, bufSize: nat) returns (head: Ptr)
    requires vecs.Length == nodes.Length
    modifies vecs, nodes
    ensures forall k :: 0 <= k < vecs.Length ==> vecs[k] == IovecOf(k, bufSize)
    ensures forall k :: 0 <= k < nodes.Length ==> nodes[k].bid == k % U16 && nodes[k].iov == k
    ensures Chain(nodes[..], head, Countdown(nodes.Length))
  {
    head := Null;
    ghost var listed: seq<nat> := [];
    for i := 0 to nodes.Length
      invariant forall k :: 0 <= k < i ==> vecs[k] == IovecOf(k, bufSize)
      invariant forall k :: 0 <= k < i ==> nodes[k].bid == k % U16 && nodes[k].iov == k
      invariant listed == Countdown(i) && Chain(nodes[..], head, listed)
    {
      vecs[i] := IovecOf(i, bufSize);
      ThreadNode(nodes, i, head, listed);
      head, listed := Node(i), [i] + listed;
    }
  }

  class BufPool {
    var buf: array<char>
    var iovecs: array<Iovec>
    var freelistMem: array<FreeBuf>
    var freelistHead: Ptr
    const bufSize: nat

    /** The free node numbers, head first. */
    ghost var free: seq<nat>

    ghost predicate Valid()
      reads this, iovecs, freelistMem
    {
      && iovecs.Length == freelistMem.Length
      && buf.Length == freelistMem.Length * bufSize
      && (forall i :: 0 <= i < iovecs.Length ==> iovecs[i] == IovecOf(i, bufSize))
      && (forall i :: 0 <= i < freelistMem.Length ==> freelistMem[i].bid == i % U16 && freelistMem[i].iov == i)
      && Chain(freelistMem[..], freelistHead, free)
    }

    /** What is registered with the kernel: iovec k is the k-th `bufSize` bytes of the allocation, and
        together they tile it. */
    lemma Registered()
      requires Valid()
      ensures forall k :: 0 <= k < iovecs.Length ==> iovecs[k] == Iovec(k * bufSize, bufSize)
      ensures Tiles(iovecs[..], buf.Length)
    {
      assert forall k :: 0 <= k < iovecs.Length ==> iovecs[k] == Iovec(k * bufSize, bufSize);
      SlicesTile(iovecs[..], bufSize, buf.Length);
    }

    /** Every node is free, the last one first; each owns the slice its number selects. */
    constructor Init(bufSize: nat, entries: nat)
      ensures Valid() && fresh(buf) && fresh(iovecs) && fresh(freelistMem)
      ensures this.bufSize == bufSize && freelistMem.Length == entries
      ensures free == Countdown(entries)
      ensures iovecs.Length == entries && buf.Length == entries * bufSize
      ensures forall i :: 0 <= i < entries ==>
                && iovecs[i].base == i * bufSize && iovecs[i].len == bufSize
                && freelistMem[i].iov == i && freelistMem[i].bid == i % U16
      ensures Tiles(iovecs[..], buf.Length)
    {
      this.bufSize := bufSize;
      buf := new char[entries * bufSize];
      var vecs := new Iovec[entries];
      var nodes := new FreeBuf[entries];
      var head := FillNodes(vecs, nodes, bufSize);
      iovecs, freelistMem, freelistHead, free := vecs, nodes, head, Countdown(entries);
      new;
      Registered();
    }

    /** Null exactly when nothing is free; otherwise the head leaves the list. */
    method Pop() returns (p: Ptr)
      requires Valid()
      modifies this`freelistHead, this`free
      ensures Valid()
      ensures p == Null <==> old(free) == []
      ensures p == Null ==> free == []
      ensures p != Null ==> p.i < freelistMem.Length && old(free) == [p.i] + free && p.i !in free
    {
      ChainIsDistinct(freelistMem[..], freelistHead, free);
      p := freelistHead;
      if p == Null {
        return;
      }
      freelistHead := freelistMem[p.i].next;
      free := free[1..];
    }

    /** No check in the code: a bid that is out goes in front; a bid already listed ends the list. */
    method Put(bid: nat)
      requires Valid() && bid < freelistMem.Length
      modifies this`freelistHead, this`free, freelistMem
      ensures freelistMem[..] == PutNode(old(freelistMem[..]), old(freelistHead), bid) && freelistHead == Node(bid)
      ensures bid !in old(free) ==> Valid() && free == [bid] + old(free)
      ensures bid in old(free) ==> !IsList(freelistMem[..], freelistHead)
    {
      PutKeepsListIff(freelistMem[..], freelistHead, free, bid);
      if bid !in free {
        PutExtends(freelistMem[..], freelistHead, free, bid);
      }
      freelistMem[bid] := freelistMem[bid].(next := freelistHead);
      freelistHead := Node(bid);
      assert freelistMem[..] == PutNode(old(freelistMem[..]), old(freelistHead), bid);
      free := [bid] + free;
    }
  }
}
