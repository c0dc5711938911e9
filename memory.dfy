/** Machine integers and the guest-owned byte buffers of the library. */
module Memory {

  type uint8 = x: int | 0 <= x < 0x100
  type uint64 = x: int | 0 <= x < 0x1_0000_0000_0000_0000
  type int32 = x: int | -0x8000_0000 <= x < 0x8000_0000

  /** A growable, guest-owned byte buffer (`Vec<u8>`); `elems` are its `len()` bytes. */
  class ByteVec {
    var elems: seq<uint8>

    constructor ()
      ensures elems == []
    {
      elems := [];
    }
  }

  /** `buffer` after `data` is copied to its start, as far as it reaches:
      the buffer keeps its length, the copied positions hold `data`, the
      rest keeps its old bytes. */
  function Overwrite(buffer: seq<uint8>, data: seq<uint8>): (r: seq<uint8>)
    ensures |r| == |buffer|
    ensures forall i :: 0 <= i < |r| ==> r[i] == if i < |data| then data[i] else buffer[i]
  {
    if |data| <= |buffer| then data + buffer[|data|..] else data[..|buffer|]
  }

  /** `reserve_vec_space`: replaces `vec` by a buffer of exactly `size` bytes.
      The bytes are uninitialised memory in the library, so the contract says
      nothing about them; the body happens to pick zeros. */
  method ReserveVecSpace(vec: ByteVec, size: nat)
    modifies vec
    ensures |vec.elems| == size
  {
    vec.elems := seq(size, _ => 0);
  }
}
