/** The library surface over the storage functions: the `CLTyped` mapping,
    typed `Value` cells, the dispatch table and the argument bag. */
module Api {
  import opened Wrappers
  import opened Memory
  import opened HostTypes
  import opened Native
  import Host

  /** The type descriptors of the contract schema. */
  datatype CLType = Bool | String | Unit | Any

  /** The Rust types that implement `CLTyped`. */
  datatype RustType = StringType | BoolType | UnitType | ValueType(inner: RustType)

  /** `cl_type()`: `String`, `bool` and `()` have their own descriptor, and
      `Value<T>` takes that of `T`. No implementation yields `Any`. */
  function ClType(t: RustType): (c: CLType)
    ensures c != Any
  {
    match t
    case StringType => String
    case BoolType => Bool
    case UnitType => Unit
    case ValueType(inner) => ClType(inner)
  }

  /** The type inside any number of `Value` wrappers. */
  function Payload(t: RustType): (p: RustType)
    ensures !p.ValueType?
  {
    if t.ValueType? then Payload(t.inner) else t
  }

  /** `Value` wrappers are transparent to `cl_type()`. */
  lemma {:induction false} ClTypeOfPayload(t: RustType)
    ensures ClType(t) == ClType(Payload(t))
  {
    if t.ValueType? {
      ClTypeOfPayload(t.inner);
    }
  }

  /** Two types share a descriptor exactly when they wrap the same payload. */
  lemma {:induction false} ClTypeDistinguishesPayloads(t1: RustType, t2: RustType)
    ensures ClType(t1) == ClType(t2) <==> Payload(t1) == Payload(t2)
  {
    ClTypeOfPayload(t1);
    ClTypeOfPayload(t2);
  }

  /** The kinds of `io::Error`. The library itself only builds `Other`; the
      other kinds stand for those an encoder or decoder may report, which
      reach the caller unchanged. */
  datatype IoErrorKind = Other | InvalidInput | InvalidData

  /** An `io::Error`: its kind and message. */
  datatype IoError = IoError(kind: IoErrorKind, message: string)

  /** What `Value::set` and `Value::get` turn any host error into. */
  const HostFailure := IoError(Other, "todo")

  /** The error kinds of the library's API. */
  datatype ApiError = Error1 | Error2 | MissingArgument | Io(cause: IoError)

  /** Borsh for one type `T`, kept uninterpreted: `borsh::to_vec` and
      `deserialize`, each of which may fail with an `io::Error`. */
  datatype Codec<!T> = Codec(encode: T -> Result<seq<uint8>, IoError>, decode: seq<uint8> -> Result<T, IoError>)

  /** Every encoding the codec produces decodes to the value it came from. */
  ghost predicate RoundTrips<T(!new)>(codec: Codec<T>)
  {
    forall x :: codec.encode(x).Ok? ==> codec.decode(codec.encode(x).value) == Ok(x)
  }

  /** A decoding result as `Value::get` returns it. */
  function Decoded<T>(d: Result<T, IoError>): Result<Option<T>, IoError>
  {
    match d
    case Ok(x) => Ok(Some(x))
    case Err(e) => Err(e)
  }

  /** `Value<T>`: a named cell in one keyspace. `Value::new` is this
      constructor; `name` holds the UTF-8 bytes of the cell's name. */
  datatype Value = Value(name: seq<uint8>, keySpace: uint64)

  /** `Value::set`: stores the encoding of `x` under the cell's name in its
      keyspace with tag 0. An encoding error comes back unchanged and
      nothing is written; a host error would become `HostFailure`. */
  method Set<T>(v: Value, x: T, codec: Codec<T>, b: Host.Boundary) returns (r: Result<(), IoError>)
    modifies b.Store()
    ensures codec.encode(x).Err? ==> r == Err(codec.encode(x).error) && unchanged(b.Store())
    ensures codec.encode(x).Ok? ==> r == Ok(())
    ensures codec.encode(x).Ok? && !b.WasmBuild? ==>
      b.kv.db == Insert(old(b.kv.db), v.keySpace, v.name, TaggedValue(0, codec.encode(x).value))
  {
    var encoded := codec.encode(x);
    if encoded.Err? {
      return Err(encoded.error);
    }
    var written := Host.Write(b, v.keySpace, v.name, 0, encoded.value);
    if written.Err? {
      return Err(HostFailure);
    }
    r := Ok(());
  }

  /** `Value::get`: reads the cell with a sizer that stores a vector of the
      requested length. A host error becomes `HostFailure`. Otherwise a
      value comes back exactly when the sizer ran, whether the status was
      0 or 1: the vector `buf` it received, as the host filled it, is
      decoded; if it did not run the answer is `Ok(None)`. The native read
      as written never runs it. */
  method Get<T>(v: Value, codec: Codec<T>, b: Host.Boundary) returns (r: Flow<Result<Option<T>, IoError>>, ghost buf: seq<uint8>)
    ensures b.NativeBuild? ==> r == Returned(Ok(None))
    ensures b.CopyingBuild? ==>
      r == match Lookup(b.kv.db, v.keySpace, v.name)
           case None => Returned(Ok(None))
           case Some(stored) => Returned(Decoded(codec.decode(stored.value)))
    ensures b.WasmBuild? ==>
      var reply := b.reply;
      if |reply.allocs| > 1 then r == Panicked
      else if reply.status != 0 && reply.status != 1 then r == Returned(Err(HostFailure))
      else if reply.allocs == [] then r == Returned(Ok(None))
      else
        && |buf| == reply.allocs[0]
        && (var k := if |reply.data| < |buf| then |reply.data| else |buf|; buf[..k] == reply.data[..k])
        && r == Returned(Decoded(codec.decode(buf)))
  {
    buf := [];
    var f := new Sizer(ReserveVec);
    var outcome := Host.Read(b, v.keySpace, v.name, f);
    if outcome.Panicked? {
      return Panicked, buf;
    }
    if outcome.value.Err? {
      return Returned(Err(HostFailure)), buf;
    }
    match f.read {
      case Some(read) =>
        buf := read.elems;
        var value := codec.decode(read.elems);
        match value {
          case Ok(x) => r := Returned(Ok(Some(x)));
          case Err(e) => r := Returned(Err(e));
        }
      case None =>
        r := Returned(Ok(None));
    }
  }

  /** In a native build as written, a value that was set cannot be got back:
      the entry is in the store, yet `get` answers `Ok(None)`. */
  method NativeSetThenGet<T>(v: Value, x: T, codec: Codec<T>, kv: LocalKV) returns (r: Flow<Result<Option<T>, IoError>>)
    modifies kv
    ensures codec.encode(x).Ok? ==>
      && Lookup(kv.db, v.keySpace, v.name) == Some(TaggedValue(0, codec.encode(x).value))
      && r == Returned(Ok(None))
  {
    var b := Host.NativeBuild(kv);
    var written := Set(v, x, codec, b);
    ghost var buf;
    r, buf := Get(v, codec, b);
  }

  /** With the copying read, `get` after `set` returns the value that was
      set, for any codec whose encodings decode back. */
  method CopyingSetThenGet<T(!new)>(v: Value, x: T, codec: Codec<T>, kv: LocalKV) returns (r: Flow<Result<Option<T>, IoError>>)
    requires RoundTrips(codec)
    modifies kv
    ensures codec.encode(x).Ok? ==> r == Returned(Ok(Some(x)))
  {
    var b := Host.CopyingBuild(kv);
    var written := Set(v, x, codec, b);
    ghost var buf;
    r, buf := Get(v, codec, b);
  }

  /** An `extern "C" fn()` handle, known by its address. */
  datatype FnPtr = FnPtr(address: nat)

  /** The per-thread state of the library: the `DISPATCHER` table and the
      `ARGS` bag. `args` is filled by code outside this library. */
  class Context {
    var dispatcher: map<string, FnPtr>
    var args: map<string, seq<uint8>>

    /** Both tables start empty. */
    constructor ()
      ensures dispatcher == map[] && args == map[]
    {
      dispatcher := map[];
      args := map[];
    }

    /** `register_func`: maps `name` to `f`, replacing any earlier handle
        under that name; every other name and the argument bag stay. */
    method RegisterFunc(name: string, f: FnPtr)
      modifies this
      ensures dispatcher == old(dispatcher)[name := f]
      ensures args == old(args)
    {
      dispatcher := dispatcher[name := f];
    }

    /** `get_named_arg`: `MissingArgument` exactly when the bag has no
        `name`; otherwise the decoded bytes, or the decoder's error wrapped
        in `Io`. The bag is only read. */
    function GetNamedArg<T>(name: string, codec: Codec<T>): (r: Result<T, ApiError>)
      reads this
      ensures r == Err(MissingArgument) <==> name !in args
      ensures name in args ==> (r.Ok? <==> codec.decode(args[name]).Ok?)
      ensures name in args && r.Ok? ==> r.value == codec.decode(args[name]).value
      ensures name in args && r.Err? ==> r.error == Io(codec.decode(args[name]).error)
    {
      if name !in args then Err(MissingArgument)
      else
        var argBytes := args[name];
        match codec.decode(argBytes)
        case Ok(x) => Ok(x)
        case Err(e) => Err(Io(e))
    }
  }
}
