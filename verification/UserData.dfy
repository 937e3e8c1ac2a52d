/** The 64-bit tag carried through the kernel: (fd or bid, op) packed in a union. */
module UserData {
  import opened Bits

  const OP_LISTEN := 1
  const OP_ACCEPT := 2
  const OP_RECVMSG := 3
  const OP_WRITE := 4
  const OP_WRITE_FIXED := 5
  const OP_SENDMSG := 6

  const U8 := 0x100
  const U24 := 0x100_0000
  const U32 := 0x1_0000_0000
  const U40 := 0x100_0000_0000
  const U64 := 0x1_0000_0000_0000_0000

  datatype Tag = Tag(fd: nat, op: nat)

  /** Little-endian image of the union: a 32-bit word assigned from a 16-bit parameter, one op
      byte, and three padding bytes the initialiser leaves unspecified. */
  function Encode(fd: int, op: nat, pad: nat): (v: nat)
    ensures v < U64
  {
    fd % U16 + (op % U8) * U32 + (pad % U24) * U40
  }

  function Decode(v: nat): Tag {
    Tag(v % U32, (v / U32) % U8)
  }

  /** Decoding recovers the 16-bit key and the op whatever the padding holds. */
  lemma RoundTrip(fd: int, op: nat, pad: nat)
    ensures Decode(Encode(fd, op, pad)) == Tag(fd % U16, op % U8)
  {
    var low, high := fd % U16, op % U8 + (pad % U24) * U8;
    var v := Encode(fd, op, pad);
    assert v == high * U32 + low;
    assert v % U32 == low && v / U32 == high;
    assert high % U8 == op % U8;
  }

  /** Two requests share a decoded tag exactly when key and op agree as 16- and 8-bit values. */
  lemma SameTagIff(fd: int, op: nat, pad: nat, fd': int, op': nat, pad': nat)
    ensures Decode(Encode(fd, op, pad)) == Decode(Encode(fd', op', pad'))
       <==> fd % U16 == fd' % U16 && op % U8 == op' % U8
    ensures Encode(fd, op, pad) == Encode(fd', op', pad') ==> fd % U16 == fd' % U16 && op % U8 == op' % U8
  {
    RoundTrip(fd, op, pad);
    RoundTrip(fd', op', pad');
  }

  /** The key survives the round trip exactly when it was a 16-bit value to begin with. */
  lemma KeySurvivesIff(fd: int, op: nat, pad: nat)
    ensures Decode(Encode(fd, op, pad)).fd == fd <==> 0 <= fd < U16
  {
    RoundTrip(fd, op, pad);
  }
}
