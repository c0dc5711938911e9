/** The storage functions of the WebAssembly build: calls across the
    boundary to the host, with the host's side given as an oracle. */
module Wasm {
  import opened Wrappers
  import opened Memory
  import opened HostTypes

  /** How the host answers one `casper_read`: the status it returns, the tag
      it leaves in the `info` struct, the lengths it passes to the
      allocation callback, in the order of those calls, and the value bytes
      it copies through the pointer the first call returns. */
  datatype ReadReply = ReadReply(status: int32, tag: uint64, allocs: seq<nat>, data: seq<uint8>)

  /** The guest's reading of a `casper_read` status: 0 is a hit carrying the
      tag, 1 a miss, anything else a host error. */
  function ReadStatus(ret: int32, tag: uint64): (r: Result<Option<Entry>, Error>)
    ensures r == Ok(Some(Entry(tag))) <==> ret == 0
    ensures r == Ok(None) <==> ret == 1
    ensures r.Err? <==> ret != 0 && ret != 1
    ensures r.Err? ==> r.error == Foo
  {
    if ret == 0 then Ok(Some(Entry(tag)))
    else if ret == 1 then Ok(None)
    else Err(Foo)
  }

  /** The `Option<F>` whose address `read` hands the host as `alloc_ctx`. */
  class AllocContext {
    var closure: Option<Sizer>

    constructor (f: Sizer)
      ensures closure == Some(f)
    {
      closure := Some(f);
    }
  }

  /** `alloc_cb`: takes the closure out of the context and runs it on `len`.
      The context is empty afterwards, so a second call finds `None` and its
      `unwrap` panics: the closure cannot run twice. */
  method AllocCb(len: nat, ctx: AllocContext) returns (r: Flow<ByteVec>)
    modifies ctx, if ctx.closure.Some? then {ctx.closure.value} else {}
    ensures ctx.closure == None
    ensures r.Panicked? <==> old(ctx.closure).None?
    ensures old(ctx.closure).Some? ==> Ran(old(ctx.closure).value, len)
    ensures old(ctx.closure).Some? && old(ctx.closure).value.closure.RecordSize? ==>
      r == Returned(old(ctx.closure).value.closure.destination)
    ensures old(ctx.closure).Some? && old(ctx.closure).value.closure.ReserveVec? ==>
      r.Returned? && old(ctx.closure).value.read == Some(r.value)
  {
    var taken := ctx.closure;
    ctx.closure := None;
    match taken
    case None =>
      r := Panicked;
    case Some(f) =>
      var dest := f.Call(len);
      r := Returned(dest);
  }

  /** The host has copied `data` into the buffer the sizer `f` handed out:
      over the caller's destination for `read_into`'s closure, over the
      fresh vector for `Value::get`'s. Bytes past the buffer's end are not
      written. */
  twostate predicate Copied(f: Sizer, data: seq<uint8>)
    reads f, f.Targets(), if f.read.Some? then {f.read.value} else {}
  {
    match f.closure
    case RecordSize(d) =>
      d.elems == Overwrite(old(d.elems), data)
    case ReserveVec =>
      f.read.Some? &&
      var k := if |data| < |f.read.value.elems| then |data| else |f.read.value.elems|;
      f.read.value.elems[..k] == data[..k]
  }

  /** The outcome of `read` when the host answers `host`: a panic exactly on
      a second callback, otherwise the status mapping; the sizer idle if the
      host never calls back, else run once on the first length, with the
      host's bytes in its buffer. */
  twostate predicate ReadDone(host: ReadReply, f: Sizer, new r: Flow<Result<Option<Entry>, Error>>)
    reads f, f.Targets(), if f.read.Some? then {f.read.value} else {}
  {
    && (r.Panicked? <==> |host.allocs| > 1)
    && (r.Returned? ==> r.value == ReadStatus(host.status, host.tag))
    && (host.allocs == [] ==> Idle(f) && unchanged(f.Targets()))
    && (host.allocs != [] ==> Ran(f, host.allocs[0]) && Copied(f, host.data))
  }

  /** `read`: asks the host for `(keySpace, key)` with `f` behind the
      allocation callback. The host may call back any number of times; the
      first call runs `f` and the host copies the value through the pointer
      it returns, a second call panics. The status alone decides the
      result, whether or not `f` ran. */
  method Read(keySpace: uint64, key: seq<uint8>, f: Sizer, host: ReadReply) returns (r: Flow<Result<Option<Entry>, Error>>)
    modifies f, f.Targets()
    ensures ReadDone(host, f, r)
  {
    var infoTag: uint64 := 0;
    var ctx := new AllocContext(f);
    // casper_read: the host invokes alloc_cb once per requested allocation
    // and writes the value through the first pointer it gets back
    var i := 0;
    while i < |host.allocs|
      invariant 0 <= i <= |host.allocs| && i <= 1
      invariant ctx.closure == (if i == 0 then Some(f) else None)
      invariant i == 0 ==> Idle(f) && unchanged(f.Targets())
      invariant i > 0 ==> Ran(f, host.allocs[0]) && Copied(f, host.data)
    {
      var dest := AllocCb(host.allocs[i], ctx);
      if dest.Panicked? {
        return Panicked;
      }
      dest.value.elems := Overwrite(dest.value.elems, host.data);
      i := i + 1;
    }
    infoTag := host.tag;
    var ret := host.status;
    r := Returned(ReadStatus(ret, infoTag));
  }

  /** `read_into`: reads with a closure that records the length it is given
      and hands back `destination`, which the host then fills. The result of
      `read` is dropped: if the closure never ran the answer is `None`;
      otherwise it is the first `size` bytes of the filled `destination`,
      and slicing past its end panics. */
  method ReadInto(keySpace: uint64, key: seq<uint8>, destination: ByteVec, host: ReadReply) returns (r: Flow<Option<seq<uint8>>>)
    modifies destination
    ensures host.allocs == [] ==> r == Returned(None) && destination.elems == old(destination.elems)
    ensures host.allocs != [] ==> destination.elems == Overwrite(old(destination.elems), host.data)
    ensures |host.allocs| > 1 ==> r == Panicked
    ensures |host.allocs| == 1 ==>
      r == if host.allocs[0] <= |destination.elems|
           then Returned(Some(destination.elems[..host.allocs[0]]))
           else Panicked
    ensures host.allocs == [|host.data|] && |host.data| <= |old(destination.elems)| ==>
      r == Returned(Some(host.data))
  {
    var sizer := new Sizer(RecordSize(destination));
    var outcome := Read(keySpace, key, sizer, host);
    if outcome.Panicked? {
      return Panicked;
    }
    match sizer.whatSize
    case None =>
      r := Returned(None);
    case Some(size) =>
      if size <= |destination.elems| {
        assert host.allocs == [|host.data|] ==> destination.elems[..size] == host.data;
        r := Returned(Some(destination.elems[..size]));
      } else {
        r := Panicked;
      }
  }

  /** `write`: hands the entry to the host and reports success whatever
      `casper_write` returns (`hostStatus`). */
  method Write(keySpace: uint64, key: seq<uint8>, tag: uint64, value: seq<uint8>, hostStatus: int32) returns (r: Result<(), Error>)
    ensures r == Ok(())
  {
    var ignored := hostStatus;
    r := Ok(());
  }
}
