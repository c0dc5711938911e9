/** The storage functions the library links against: the native simulation
    in a native build, the host boundary in a WebAssembly build. */
module Host {
  import opened Wrappers
  import opened Memory
  import opened HostTypes
  import opened Native
  import Wasm

  /** Which implementation `host::read` and `host::write` stand for. The
      native store comes twice: with `read` as written (the sizer is never
      called) and with the copying read `ReadCopying`. A WebAssembly build
      answers from the host oracle: the reply to the read and the status
      `casper_write` returns. */
  datatype Boundary =
    | NativeBuild(kv: LocalKV)
    | CopyingBuild(kv: LocalKV)
    | WasmBuild(reply: Wasm.ReadReply, writeStatus: int32)
  {
    /** The guest-side state a write may change. */
    function Store(): set<object>
    {
      if WasmBuild? then {} else {kv}
    }
  }

  /** `host::write`. It never fails; a native build stores the entry. */
  method Write(b: Boundary, keySpace: uint64, key: seq<uint8>, tag: uint64, value: seq<uint8>) returns (r: Result<(), Error>)
    modifies b.Store()
    ensures r == Ok(())
    ensures !b.WasmBuild? ==> b.kv.db == Insert(old(b.kv.db), keySpace, key, TaggedValue(tag, value))
  {
    match b
    case NativeBuild(kv) =>
      r := kv.Write(keySpace, key, tag, value);
    case CopyingBuild(kv) =>
      r := kv.Write(keySpace, key, tag, value);
    case WasmBuild(_, status) =>
      r := Wasm.Write(keySpace, key, tag, value, status);
  }

  /** `host::read`, with the contract of whichever implementation `b` selects. */
  method Read(b: Boundary, keySpace: uint64, key: seq<uint8>, f: Sizer) returns (r: Flow<Result<Option<Entry>, Error>>)
    modifies f, f.Targets()
    ensures b.NativeBuild? ==>
      r == Returned(ReadOutcome(b.kv.db, keySpace, key)) && Idle(f) && unchanged(f.Targets())
    ensures b.CopyingBuild? ==> CopiedRead(b.kv.db, keySpace, key, f, r)
    ensures b.WasmBuild? ==> Wasm.ReadDone(b.reply, f, r)
  {
    match b
    case NativeBuild(kv) =>
      var outcome := kv.Read(keySpace, key, f);
      r := Returned(outcome);
    case CopyingBuild(kv) =>
      r := kv.ReadCopying(keySpace, key, f);
    case WasmBuild(reply, _) =>
      r := Wasm.Read(keySpace, key, f, reply);
  }
}
