# Guest-side key/value storage: a Dafny model

This project models the storage layer that a guest contract uses to persist
tagged byte values under `(keyspace, key)` pairs, and the small registry and
typed-value layer above it.

- **Native build.** A local simulation store (`LocalKV`): a two-level ordered
  map from keyspace to key bytes to a tagged value. `write` inserts or
  replaces one entry. `read` reports the stored tag.
- **WebAssembly build.** The boundary read protocol. The host answers
  `casper_read` with a status, a tag and calls to an allocation callback. The
  callback takes the caller's sizer closure out of an `Option` and runs it, so
  the closure can run at most once. The host copies the value into the buffer
  the closure returns, and `read_into` returns a prefix of the
  caller's buffer. `write` always reports success.
- **Library layer.** The `CLTyped` descriptor mapping, and `Value<T>` cells
  whose `set` and `get` go through the storage functions. It also holds the
  per-thread `DISPATCHER` table and `ARGS` bag, modelled as one `Context`
  object.

Modules and files:

| file | module | contents |
|---|---|---|
| wrappers.dfy | `Wrappers` | `Option`, `Result`, and `Flow`, which marks a guest panic |
| memory.dfy | `Memory` | integer widths, `ByteVec` (a `Vec<u8>`), `reserve_vec_space` |
| host_types.dfy | `HostTypes` | `Error`, `Entry`, and the sizer closures (`Sizer`) with a ghost call counter |
| native.dfy | `Native` | the simulation store and the properties of successive writes |
| wasm.dfy | `Wasm` | status mapping, `alloc_cb`, `read`, `read_into`, `write`; the host is an oracle |
| host.dfy | `Host` | selecting the build behind `host::read` / `host::write` |
| api.dfy | `Api` | `CLTyped`, `Value::set` / `get`, `register_func`, `get_named_arg` |

How the model represents the source:

- **The wasm host** is a `ReadReply(status, tag, allocs, data)` value.
  `allocs` lists the lengths the host passes to `alloc_cb`, in call order.
  `data` is the value the host copies through the pointer the first callback
  returns. The status `casper_write` returns is a plain parameter.
- **Panics** are the `Panicked` outcome. They come from an `unwrap` of
  `None`, or from slicing `destination[..size]` past its end.
- **Borsh** is a `Codec<T>`: two uninterpreted total functions, `encode` and
  `decode`. Either may fail with an `io::Error`.
- **`Value::new`** is the datatype constructor `Value(name, keySpace)`. The
  name is held as its UTF-8 bytes.
- **Sizer closures.** The two closures the library passes as the sizer are
  the two cases of `Closure`:
  - `read_into`'s closure records `what_size`;
  - `Value::get`'s closure stores a vector resized by `reserve_vec_space`.

Behaviours of the code a caller may not expect:

- Host errors are `Error::Foo`, not a transport error kind.
- The wasm `write` ignores the host's return code.
- The native `read` never calls its sizer and copies no bytes (see Findings).
- In wasm, `Value::get` decodes a value exactly when the sizer ran and the
  status is 0 or 1, so also when the status said "not found". Any other
  status is a host error. `read_into` drops the result of `read` altogether.
- A destination shorter than the reported size makes `read_into` panic. It
  does not truncate.
- `register_func` silently replaces an earlier handle under the same name.
- The code has no `dispatch` operation. `ARGS` is only read: the `Context`
  exposes `args` as a field that code outside the library fills.

## Model

| member | source | states |
|---|---|---|
| `Memory.ReserveVecSpace` | api/src/lib.rs:85-91 | afterwards the vector has exactly `size` bytes; their contents are unspecified |
| `HostTypes.Sizer.constructor` | api/src/lib.rs:115 | a new closure has not run and its captured slots (`what_size`, `read`) are `None` |
| `HostTypes.Sizer.Call` | api/src/host.rs:104-107 | running the closure counts one call. `read_into`'s closure records the size and returns the caller's destination. `Value::get`'s closure (api/src/lib.rs:116-119) stores a fresh vector of exactly that size and returns it |
| `Native.Insert` | api/src/host.rs:236-242 | after a write the key holds the new tagged value. Every other key of every keyspace reads as before. The keyspace's inner map is created if missing |
| `Native.LocalKV.constructor` | api/src/host.rs:215-218 | the default store is empty |
| `Native.LocalKV.Write` | api/src/host.rs:233-245 | the store becomes `Insert` of the old store, so the entry is replaced in full; the result is always `Ok(())` |
| `Native.LocalKV.Read` | api/src/host.rs:246-258 | always `Ok`. `Some(Entry)` exactly when the key is stored, carrying its tag; `None` for a missing key or keyspace. The store is not changed and the sizer `func` never runs |
| `Native.LocalKV.ReadCopying` | api/src/host.rs:246-258 | corrected read. On a miss: `Ok(None)`, sizer idle. On a hit: the sizer runs once, on the value's length, and the value's bytes land in the buffer it returned. A too-short destination panics |
| `Native.WriteThenRead` | api/src/host.rs:233-258 | a read after a write reports the written tag, and the store holds the written bytes |
| `Native.ApplyWritesSnoc` | api/src/host.rs:236-242 | performing one more write after a sequence of writes is one more `Insert` |
| `Native.LookupAfterWrites` | api/src/host.rs:236-242 | after any sequence of writes, a key holds exactly the tag and bytes of the last write addressed to it; a key never addressed is unchanged |
| `Native.OverwriteReplaces` | api/src/host.rs:236-242 | a second write to the same key gives the same store as the second write alone: replace, never merge |
| `Wasm.ReadStatus` | api/src/host.rs:148-154 | status 0 gives `Ok(Some(Entry{tag}))`, status 1 gives `Ok(None)`, and any other status gives `Err(Foo)`. Each holds in both directions |
| `Wasm.AllocCb` | api/src/host.rs:126-133 | the context is empty afterwards. The call panics exactly when it was already empty; otherwise the closure it held ran once on `len` |
| `Wasm.Read` | api/src/host.rs:114-155 | panics exactly when the host calls back more than once. Otherwise the result is the status mapping of the host's status and tag. The sizer is idle and its buffer untouched if the host never calls back. Otherwise the sizer ran once, on the first requested length, and the buffer it returned holds the host's bytes |
| `Wasm.ReadInto` | api/src/host.rs:98-112 | `None` exactly when the sizer never ran, and then `destination` is untouched. Otherwise the host's bytes are copied into `destination`. With one callback of size `n`, it returns the first `n` bytes of the filled `destination`, or panics if `n` exceeds its length; when `n` is the length of the host's value, that is the value itself. It panics on a second callback |
| `Wasm.Write` | api/src/host.rs:157-169 | `Ok(())` whatever `casper_write` returns |
| `Host.Write` | api/src/host.rs:272-275 | the selected `write`: always `Ok(())`, and in a native build the store becomes `Insert` of the old one |
| `Host.Read` | api/src/host.rs:272-275 | the selected `read`, with the contract of the native, copying (`CopiedRead`) or wasm (`ReadDone`) implementation |
| `Api.ClType` | api/src/lib.rs:23-38 | the descriptor is `String`, `Bool`, `Unit` or that of the wrapped type, and never `Any` |
| `Api.ClTypeOfPayload` | api/src/lib.rs:80-84 | `Value<T>` wrappers, however deeply nested, are transparent: the descriptor is that of the innermost type |
| `Api.ClTypeDistinguishesPayloads` | api/src/lib.rs:23-38 | two types share a descriptor exactly when they wrap the same innermost type |
| `Api.Set` | api/src/lib.rs:103-111 | an encoding error is returned unchanged and nothing is written. Otherwise `Ok(())`, and a native store holds the encoding with tag 0 under the name in the cell's keyspace |
| `Api.Get` | api/src/lib.rs:113-128 | native build as written: always `Ok(None)`. Copying build: the decoded stored bytes, or `Ok(None)` on a miss. Wasm: panics on a second callback, and a host error becomes `io::Error(Other)`. Otherwise `Ok(None)` if the sizer never ran, else the decoding of the buffer of the size the sizer got, which starts with the host's bytes |
| `Api.NativeSetThenGet` | api/src/lib.rs:114-127 | in a native build as written, after a successful `set` the entry is in the store, yet `get` returns `Ok(None)` |
| `Api.CopyingSetThenGet` | api/src/lib.rs:114-127 | with the copying read and a codec whose encodings decode back, `get` after a successful `set` returns `Ok(Some(x))` |
| `Api.Context.constructor` | api/src/lib.rs:160-163 | the dispatch table and the argument bag start empty |
| `Api.Context.RegisterFunc` | api/src/lib.rs:165-169 | the table maps `name` to `f`, replacing any earlier handle under `name`; other names and the argument bag are unchanged |
| `Api.Context.GetNamedArg` | api/src/lib.rs:179-187 | `Err(MissingArgument)` exactly when the name is absent. Otherwise `Ok` of the decoded bytes, or `Err(Io(e))` when decoding fails with `e`; the bag is only read |

## Left out

- `print`, for both builds (api/src/host.rs:89-91, 230-232), and the message `register_func` prints: diagnostic output only.
- `revert`, for both builds (api/src/host.rs:93-96, 263-265): a host abort or a panic that never returns, with no state to model.
- `alloc` and `dealloc` (api/src/host.rs:171-187): raw-pointer exports that the host calls, outside the guest's logic.
- `Slice`, `Param` and the raw `EntryPoint` struct (api/src/host.rs:12-40): raw-pointer shapes with no behaviour.
- The raw `casper_*` imports (api/src/host.rs:65-87): their answers are oracle parameters instead.
- `register_entrypoint` (api/src/lib.rs:171-177): it only prints its argument.
- The schema structs, the `Contract` trait, `Access` and the library `EntryPoint` (api/src/lib.rs:43-70, 131-150): data shapes with no logic.
- The procedural macros and the example contract: compile-time code generation and example use.
- Borsh: kept as the uninterpreted `Codec<T>`.
- The `thread_local!`/`RefCell` cells: plain fields of `LocalKV` and `Context`.
- UTF-8 encoding of names: a `Value` holds its name's bytes directly.
- `Wasm.Read`: a host that writes past the end of the buffer the sizer returned corrupts guest memory. The model copies only the bytes that fit, so nothing beyond the buffer is modelled.
- `Api.Get`: in the wasm build, when the host sends fewer bytes than it asked the sizer for, the rest of the vector is uninitialised memory. The contract fixes only the prefix the host wrote.
- `Memory.ReserveVecSpace`: states only the new length, because the bytes are uninitialised memory in the source.
- `Wasm.ReadStatus`: the `info.data` and `info.size` fields the host fills are never read by the guest, so only the tag is kept.
- Lengths are unbounded naturals, not 32-bit `usize`: no length in the model wraps.

## Findings

| source | as written | input that shows it | evidently intended | confidence | as-written member | corrected member |
|---|---|---|---|---|---|---|
| api/src/host.rs:246-258 | the native `read` never calls its sizer `func`, so no bytes ever reach the caller | a native build: `Value::set(x)` and then `Value::get()`. The entry is in the store, but `get` returns `Ok(None)` | on a hit, call `func` once with the value's length and copy the value into the returned buffer, so `get` after `set` returns `Ok(Some(x))` | high; not executed | `Api.NativeSetThenGet` | `Api.CopyingSetThenGet` |
