/** The values exchanged by the storage functions, and the sizer closures
    that callers hand to `read`. */
module HostTypes {
  import opened Wrappers
  import opened Memory

  /** The host-side error kinds. Only `Foo` is ever produced. */
  datatype Error = Foo | Bar

  /** A successful read: the stored tag. The bytes go to the sizer's buffer. */
  datatype Entry = Entry(tag: uint64)

  /** The two closures the library passes to `read` as its sizer `f`.
      RecordSize is `read_into`'s: it stores the length in the captured
      `what_size` and hands back the caller's `destination`.
      ReserveVec is `Value::get`'s: it stores a fresh vector, resized by
      `reserve_vec_space` to the length, in the captured `read`. */
  datatype Closure = RecordSize(destination: ByteVec) | ReserveVec

  /** A sizer closure with the state it captures. `calls` counts how often
      its body ran, which `FnOnce` allows at most once. */
  class Sizer {
    const closure: Closure
    ghost var calls: nat
    var whatSize: Option<nat>
    var read: Option<ByteVec>

    constructor (closure: Closure)
      ensures this.closure == closure
      ensures calls == 0 && whatSize == None && read == None
    {
      this.closure := closure;
      calls := 0;
      whatSize := None;
      read := None;
    }

    /** The buffers a reader may write through the pointer the closure
        returns, apart from those the closure allocates itself. */
    function Targets(): set<object>
    {
      if closure.RecordSize? then {closure.destination} else {}
    }

    /** Runs the closure body on the length `size`; `dest` stands for the
        pointer it returns. */
    method Call(size: nat) returns (dest: ByteVec)
      modifies this
      ensures Ran(this, size)
      ensures closure.RecordSize? ==> dest == closure.destination
      ensures closure.ReserveVec? ==> read == Some(dest)
    {
      calls := calls + 1;
      match closure
      case RecordSize(d) =>
        whatSize := Some(size);
        dest := d;
      case ReserveVec =>
        var v := new ByteVec();
        read := Some(v);
        ReserveVecSpace(v, size);
        dest := v;
    }
  }

  /** `f` has not run: nothing it captured changed. */
  twostate predicate Idle(f: Sizer)
    reads f
  {
    f.calls == old(f.calls) && f.whatSize == old(f.whatSize) && f.read == old(f.read)
  }

  /** `f` ran exactly once, on the length `size`, and its captured slot
      records that length. */
  twostate predicate Ran(f: Sizer, size: nat)
    reads f, if f.read.Some? then {f.read.value} else {}
  {
    && f.calls == old(f.calls) + 1
    && match f.closure
       case RecordSize(_) =>
         f.whatSize == Some(size) && f.read == old(f.read)
       case ReserveVec =>
         && f.whatSize == old(f.whatSize)
         && f.read.Some? && fresh(f.read.value)
         && |f.read.value.elems| == size
  }
}
