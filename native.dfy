/** The in-process simulation of the host store: a two-level ordered map
    from keyspace to key to tagged value, private to one execution context. */
module Native {
  import opened Wrappers
  import opened Memory
  import opened HostTypes

  /** A stored value: the caller's tag and the value bytes. */
  datatype TaggedValue = TaggedValue(tag: uint64, value: seq<uint8>)

  /** keyspace -> key bytes -> stored value. */
  type Container = map<uint64, map<seq<uint8>, TaggedValue>>

  /** The value stored under `key` in `keySpace`, if any; a keyspace
      without an inner map holds nothing. */
  function Lookup(db: Container, keySpace: uint64, key: seq<uint8>): Option<TaggedValue>
  {
    if keySpace in db && key in db[keySpace] then Some(db[keySpace][key]) else None
  }

  /** The store after one write: `v` under `(keySpace, key)`, every other
      entry of every keyspace as before. */
  function Insert(db: Container, keySpace: uint64, key: seq<uint8>, v: TaggedValue): (r: Container)
    ensures Lookup(r, keySpace, key) == Some(v)
    ensures forall ks, k :: ks != keySpace || k != key ==> Lookup(r, ks, k) == Lookup(db, ks, k)
    ensures r.Keys == db.Keys + {keySpace}
    ensures r[keySpace].Keys == (if keySpace in db then db[keySpace].Keys else {}) + {key}
  {
    var inner := if keySpace in db then db[keySpace] else map[];
    db[keySpace := inner[key := v]]
  }

  /** What a read of `(keySpace, key)` reports: the tag of the stored value,
      or nothing. */
  function ReadOutcome(db: Container, keySpace: uint64, key: seq<uint8>): Result<Option<Entry>, Error>
  {
    match Lookup(db, keySpace, key)
    case Some(v) => Ok(Some(Entry(v.tag)))
    case None => Ok(None)
  }

  /** The local store of one execution context (`LocalKV` behind the `DB`
      thread-local). */
  class LocalKV {
    var db: Container

    /** `LocalKV::default()`: an empty store. */
    constructor ()
      ensures db == map[]
    {
      db := map[];
    }

    /** `write`: inserts or replaces the value under `(keySpace, key)`,
        creating the keyspace's inner map on first use. Never fails. */
    method Write(keySpace: uint64, key: seq<uint8>, tag: uint64, value: seq<uint8>) returns (r: Result<(), Error>)
      modifies this
      ensures db == Insert(old(db), keySpace, key, TaggedValue(tag, value))
      ensures r == Ok(())
    {
      var inner: map<seq<uint8>, TaggedValue> := if keySpace in db then db[keySpace] else map[];
      inner := inner[key := TaggedValue(tag, value)];
      db := db[keySpace := inner];
      r := Ok(());
    }

    /** `read` as written: looks the entry up and reports its tag. The sizer
        `f` is accepted and never called, so no bytes reach the caller. */
    method Read(keySpace: uint64, key: seq<uint8>, f: Sizer) returns (r: Result<Option<Entry>, Error>)
      ensures r.Ok?
      ensures r.value.Some? <==> Lookup(db, keySpace, key).Some?
      ensures r.value.Some? ==> r.value.value.tag == Lookup(db, keySpace, key).value.tag
      ensures Idle(f)
    {
      var value := Lookup(db, keySpace, key);
      match value
      case Some(taggedValue) =>
        r := Ok(Some(Entry(taggedValue.tag)));
      case None =>
        r := Ok(None);
    }

    /** `read` with the copy its sizer parameter exists for: on a hit the
        sizer runs once on the value's length and the value's bytes are
        copied into the buffer it returns; on a miss the sizer never runs.
        A buffer shorter than the value cannot take the copy: the guest
        panics. */
    method ReadCopying(keySpace: uint64, key: seq<uint8>, f: Sizer) returns (r: Flow<Result<Option<Entry>, Error>>)
      modifies f, f.Targets()
      ensures CopiedRead(db, keySpace, key, f, r)
    {
      var value := Lookup(db, keySpace, key);
      match value
      case Some(taggedValue) =>
        var bytes := taggedValue.value;
        var dest := f.Call(|bytes|);
        if |bytes| <= |dest.elems| {
          dest.elems := bytes + dest.elems[|bytes|..];
          r := Returned(Ok(Some(Entry(taggedValue.tag))));
        } else {
          r := Panicked;
        }
      case None =>
        r := Returned(Ok(None));
    }
  }

  /** The outcome of the copying read of `(keySpace, key)` from `db` with
      the sizer `f`. */
  twostate predicate CopiedRead(db: Container, keySpace: uint64, key: seq<uint8>, f: Sizer, new r: Flow<Result<Option<Entry>, Error>>)
    reads f, f.Targets(), if f.read.Some? then {f.read.value} else {}
  {
    match Lookup(db, keySpace, key)
    case None => r == Returned(Ok(None)) && Idle(f) && unchanged(f.Targets())
    case Some(v) =>
      && Ran(f, |v.value|)
      && match f.closure
         case ReserveVec =>
           r == Returned(Ok(Some(Entry(v.tag)))) && f.read.value.elems == v.value
         case RecordSize(d) =>
           if |v.value| <= |old(d.elems)|
           then r == Returned(Ok(Some(Entry(v.tag)))) && d.elems == v.value + old(d.elems)[|v.value|..]
           else r == Panicked
  }

  /** A write followed by a read of the same key: the read reports the
      written tag, the store holds the written bytes, and the sizer of the
      read is left idle. */
  method WriteThenRead(kv: LocalKV, keySpace: uint64, key: seq<uint8>, tag: uint64, value: seq<uint8>, f: Sizer)
    returns (r: Result<Option<Entry>, Error>)
    modifies kv
    ensures r == Ok(Some(Entry(tag)))
    ensures Lookup(kv.db, keySpace, key) == Some(TaggedValue(tag, value))
    ensures Idle(f)
  {
    var written := kv.Write(keySpace, key, tag, value);
    r := kv.Read(keySpace, key, f);
  }

  /** One call of `write`, as data. */
  datatype WriteOp = WriteOp(keySpace: uint64, key: seq<uint8>, tag: uint64, value: seq<uint8>)

  /** The store after the writes `ws`, performed in order. */
  function ApplyWrites(db: Container, ws: seq<WriteOp>): Container
    decreases |ws|
  {
    if ws == [] then db
    else ApplyWrites(Insert(db, ws[0].keySpace, ws[0].key, TaggedValue(ws[0].tag, ws[0].value)), ws[1..])
  }

  /** The value of the last write in `ws` addressed to `(keySpace, key)`. */
  function LastWrite(ws: seq<WriteOp>, keySpace: uint64, key: seq<uint8>): Option<TaggedValue>
    decreases |ws|
  {
    if ws == [] then None
    else
      var w := ws[|ws| - 1];
      if w.keySpace == keySpace && w.key == key then Some(TaggedValue(w.tag, w.value))
      else LastWrite(ws[..|ws| - 1], keySpace, key)
  }

  /** Performing one more write after `ws` is one more `Insert`. */
  lemma {:induction false} ApplyWritesSnoc(db: Container, ws: seq<WriteOp>, w: WriteOp)
    ensures ApplyWrites(db, ws + [w]) == Insert(ApplyWrites(db, ws), w.keySpace, w.key, TaggedValue(w.tag, w.value))
    decreases |ws|
  {
    if ws == [] {
      assert ws + [w] == [w];
    } else {
      var db' := Insert(db, ws[0].keySpace, ws[0].key, TaggedValue(ws[0].tag, ws[0].value));
      assert (ws + [w])[1..] == ws[1..] + [w];
      ApplyWritesSnoc(db', ws[1..], w);
    }
  }

  /** Writes replace, never merge: after any sequence of writes, a key holds
      the tag and bytes of the last write addressed to it, and a key no
      write addressed holds what it held before. */
  lemma {:induction false} LookupAfterWrites(db: Container, ws: seq<WriteOp>, keySpace: uint64, key: seq<uint8>)
    ensures Lookup(ApplyWrites(db, ws), keySpace, key) ==
            match LastWrite(ws, keySpace, key)
            case Some(v) => Some(v)
            case None => Lookup(db, keySpace, key)
    decreases |ws|
  {
    if ws != [] {
      var prefix, w := ws[..|ws| - 1], ws[|ws| - 1];
      assert ws == prefix + [w];
      ApplyWritesSnoc(db, prefix, w);
      LookupAfterWrites(db, prefix, keySpace, key);
    }
  }

  /** A second write to the same key leaves the store exactly as if only the
      second write had happened. */
  lemma OverwriteReplaces(db: Container, keySpace: uint64, key: seq<uint8>, v1: TaggedValue, v2: TaggedValue)
    ensures Insert(Insert(db, keySpace, key, v1), keySpace, key, v2) == Insert(db, keySpace, key, v2)
  {
    var inner := if keySpace in db then db[keySpace] else map[];
    assert inner[key := v1][key := v2] == inner[key := v2];
  }
}
