/** Equal slices of one allocation: slice `b` of width `w` is the bytes [b*w, (b+1)*w). */
module Geometry {

  ghost predicate InSlice(byte: int, b: nat, w: nat) {
    b * w <= byte < (b + 1) * w
  }

  lemma ProductMonotone(a: nat, b: nat, w: nat)
    ensures a <= b ==> a * w <= b * w
  {
    if a <= b { assert b * w - a * w == (b - a) * w; }
  }

  /** Every slice with an index below `n` lies inside an allocation of `n * w` bytes. */
  lemma SliceBounds(b: nat, w: nat, n: nat)
    requires b < n
    ensures 0 <= b * w <= b * w + w == (b + 1) * w <= n * w
  {
    ProductMonotone(0, b, w);
    ProductMonotone(b + 1, n, w);
  }

  /** Every byte of the allocation lies in one of the n slices. */
  lemma SliceOf(byte: nat, w: nat, n: nat)
    requires byte < n * w
    ensures w > 0 && byte / w < n && InSlice(byte, byte / w, w)
  {
    assert w == 0 ==> n * w == 0;
    assert byte == w * (byte / w) + byte % w;
    assert (byte / w + 1) * w == w * (byte / w) + w;
    ProductMonotone(n, byte / w, w);
  }

  /** Distinct slices share no byte. */
  lemma SliceIsUnique(byte: nat, b: nat, d: nat, w: nat)
    requires InSlice(byte, b, w) && InSlice(byte, d, w)
    ensures b == d
  {
    ProductMonotone(b + 1, d, w);
    ProductMonotone(d + 1, b, w);
  }

  /** No slice reaches outside the allocation. */
  lemma SliceInside(byte: nat, b: nat, w: nat, n: nat)
    requires b < n && InSlice(byte, b, w)
    ensures byte < n * w
  {
    ProductMonotone(b + 1, n, w);
  }

  /** The bytes of slice `b`. */
  function Slice<T>(mem: seq<T>, w: nat, b: nat): (r: seq<T>)
    requires (b + 1) * w <= |mem|
    ensures |r| == w
  {
    assert (b + 1) * w == b * w + w;
    assert b * w >= 0;
    mem[b * w..(b + 1) * w]
  }

  /** `data` stored at offset `at`. */
  function Store<T>(mem: seq<T>, at: nat, data: seq<T>): (r: seq<T>)
    requires at + |data| <= |mem|
    ensures |r| == |mem|
  {
    mem[..at] + data + mem[at + |data|..]
  }

  lemma StoreReads<T>(mem: seq<T>, at: nat, data: seq<T>, lo: nat, hi: nat)
    requires at + |data| <= |mem| && lo <= hi <= |mem|
    ensures Store(mem, at, data)[at..at + |data|] == data
    ensures hi <= at || at + |data| <= lo ==> Store(mem, at, data)[lo..hi] == mem[lo..hi]
  {
    var m := Store(mem, at, data);
    assert forall i :: 0 <= i < at ==> m[i] == mem[i];
    assert forall i :: at + |data| <= i < |mem| ==> m[i] == mem[i];
  }

  /** A store at the start of slice `b` is read back from it. */
  lemma StoreSlice<T>(mem: seq<T>, w: nat, n: nat, b: nat, data: seq<T>)
    requires |mem| == n * w && b < n && |data| <= w
    ensures 0 <= b * w && b * w + |data| <= |mem| && (b + 1) * w <= |mem|
    ensures Slice(Store(mem, b * w, data), w, b)[..|data|] == data
  {
    SliceBounds(b, w, n);
    StoreReads(mem, b * w, data, 0, 0);
  }

  /** The rest of slice `b` stays. */
  lemma StoreTail<T>(mem: seq<T>, w: nat, n: nat, b: nat, data: seq<T>)
    requires |mem| == n * w && b < n && |data| <= w
    ensures 0 <= b * w && b * w + |data| <= |mem| && (b + 1) * w <= |mem|
    ensures Slice(Store(mem, b * w, data), w, b)[|data|..] == Slice(mem, w, b)[|data|..]
  {
    SliceBounds(b, w, n);
    StoreReads(mem, b * w, data, b * w + |data|, (b + 1) * w);
    SliceFrom(mem, w, b, |data|);
    SliceFrom(Store(mem, b * w, data), w, b, |data|);
  }

  lemma SliceFrom<T>(mem: seq<T>, w: nat, b: nat, k: nat)
    requires (b + 1) * w <= |mem| && k <= w
    ensures 0 <= b * w && b * w + k <= (b + 1) * w
    ensures Slice(mem, w, b)[k..] == mem[b * w + k..(b + 1) * w]
  {
    SliceBounds(b, w, b + 1);
  }

  /** A store inside slice `b` leaves every other slice alone. */
  lemma OtherSlice<T>(mem: seq<T>, w: nat, n: nat, b: nat, data: seq<T>, d: nat)
    requires |mem| == n * w && b < n && |data| <= w && d < n && d != b
    ensures 0 <= b * w && b * w + |data| <= |mem| && (d + 1) * w <= |mem|
    ensures Slice(Store(mem, b * w, data), w, d) == Slice(mem, w, d)
  {
    SliceBounds(b, w, n);
    SliceBounds(d, w, n);
    ProductMonotone(b + 1, d, w);
    ProductMonotone(d + 1, b, w);
    StoreReads(mem, b * w, data, d * w, (d + 1) * w);
  }
}
