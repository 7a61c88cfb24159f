/** Snapshots of paused stores: writing one to a buffer and reading it back as the
    source does (src/snapshot.rs: encode and decode of `Store`, to_bytes,
    from_bytes). */
module Snapshot {
  import opened Wasm
  import opened Runtime
  import opened Codec
  import opened Format
  import opened ComponentFormat
  import opened StoreFormat

  // ----- writing and reading -----

  /** A buffer that encoders append to. */
  class Writer {
    var buf: Bytes

    constructor ()
      ensures buf == []
    {
      buf := [];
    }

    method Put(bs: Bytes)
      modifies this
      ensures buf == old(buf) + bs
    {
      buf := buf + bs;
    }

    /** A count and then the items, one after the other. */
    method PutAll<T>(c: Codec<T>, xs: seq<T>)
      modifies this
      ensures buf == old(buf) + Vector(c).encode(xs)
    {
      hide EncodeItems, ToLE;
      var count := U32.encode(|xs|);
      Put(count);
      EncodeNone(c);
      ghost var start := buf;
      for k := 0 to |xs|
        invariant buf == start + EncodeItems(c, xs[..k])
      {
        hide *;
        ghost var before := buf;
        Put(c.encode(xs[k]));
        EncodeNext(c, xs, k, start, before, buf);
      }
      assert xs[..|xs|] == xs && xs[..0] == [];
      assert old(buf) + count + EncodeItems(c, xs) == old(buf) + (count + EncodeItems(c, xs));
    }
  }

  lemma EncodeNone<T>(c: Codec<T>)
    ensures EncodeItems(c, []) == [] && forall bs: Bytes :: bs + [] == bs
  {
  }

  lemma EncodeNext<T>(c: Codec<T>, xs: seq<T>, k: nat, start: Bytes, before: Bytes, after: Bytes)
    requires k < |xs| && before == start + EncodeItems(c, xs[..k]) && after == before + c.encode(xs[k])
    ensures after == start + EncodeItems(c, xs[..k + 1])
  {
    assert xs[..k + 1][..k] == xs[..k];
    assert start + EncodeItems(c, xs[..k]) + c.encode(xs[k]) == start + (EncodeItems(c, xs[..k]) + c.encode(xs[k]));
  }

  /** What is left of a buffer; a decoder advances it. */
  class Reader {
    var buf: Bytes

    constructor (bytes: Bytes)
      ensures buf == bytes
    {
      buf := bytes;
    }

    /** One value; None, where the source panics, leaves the buffer as it is. */
    method Take<T>(c: Codec<T>) returns (r: Option<T>)
      modifies this
      ensures var d := c.decode(old(buf));
              if d.Some? then r == Some(d.value.0) && buf == d.value.1 else r == None
    {
      var d := c.decode(buf);
      if d.None? {
        return None;
      }
      buf := d.value.1;
      r := Some(d.value.0);
    }

    /** A count and then that many items. */
    method TakeAll<T>(c: Codec<T>) returns (r: Option<seq<T>>)
      modifies this
      ensures var d := Vector(c).decode(old(buf));
              if d.Some? then r == Some(d.value.0) && buf == d.value.1 else r == None
    {
      var n := Take(U32);
      if n.None? {
        return None;
      }
      ghost var start := buf;
      var xs: seq<T> := [];
      for k := 0 to n.value
        invariant DecodeItems(c, k, start) == Some((xs, buf))
      {
        var x := Take(c);
        if x.None? {
          DecodeStops(c, k + 1, n.value, start);
          return None;
        }
        xs := xs + [x.value];
      }
      r := Some(xs);
    }
  }

  lemma {:induction false} DecodeStops<T>(c: Codec<T>, k: nat, n: nat, buf: Bytes)
    requires k <= n && DecodeItems(c, k, buf).None?
    ensures DecodeItems(c, n, buf).None?
  {
    if k < n { DecodeStops(c, k, n - 1, buf); }
  }

  // ----- a whole store -----

  lemma PairEncodes<A, B>(base: Bytes, a: Codec<A>, b: Codec<B>, x: A, y: B)
    ensures base + a.encode(x) + b.encode(y) == base + Pair(a, b).encode((x, y))
  {
    assert base + a.encode(x) + b.encode(y) == base + (a.encode(x) + b.encode(y));
  }

  lemma ThreeEncode<A, B, C>(base: Bytes, a: Codec<A>, b: Codec<B>, c: Codec<C>, x: A, y: B, z: C)
    ensures base + a.encode(x) + b.encode(y) + c.encode(z) == base + Pair(a, Pair(b, c)).encode((x, (y, z)))
  {
    hide Pair;
    PairEncodes(base + a.encode(x), b, c, y, z);
    PairEncodes(base, a, Pair(b, c), x, (y, z));
  }

  method EncodeSegments<Op>(w: Writer, s: SavedStore<Op>)
    modifies w
    ensures w.buf == old(w.buf) + Segments().encode((s.tags, (s.elems, s.datas)))
  {
    hide Pair, Vector, Blob, FuncTypes, ElemSegments;
    w.PutAll(FuncTypes(), s.tags);
    w.PutAll(ElemSegments(), s.elems);
    w.PutAll(Blob(4), s.datas);
    ThreeEncode(old(w.buf), Vector(FuncTypes()), Vector(ElemSegments()), Vector(Blob(4)), s.tags, s.elems, s.datas);
  }

  method EncodeShared<Op>(w: Writer, s: SavedStore<Op>)
    modifies w
    ensures w.buf == old(w.buf) + Shared().encode(SplitStore(s).0)
  {
    hide Pair, Vector, FuncInsts, Tables, Memories, Globals, Segments;
    w.PutAll(FuncInsts(), s.funcs);
    w.PutAll(Tables(), s.tables);
    ghost var base := w.buf;
    w.PutAll(Memories(), s.memories);
    w.PutAll(Globals(), s.globals);
    EncodeSegments(w, s);
    ghost var segments := (s.tags, (s.elems, s.datas));
    ThreeEncode(base, Vector(Memories()), Vector(Globals()), Segments(), s.memories, s.globals, segments);
    ThreeEncode(old(w.buf), Vector(FuncInsts()), Vector(Tables()), Pair(Vector(Memories()), Pair(Vector(Globals()), Segments())),
                s.funcs, s.tables, (s.memories, (s.globals, segments)));
  }

  method EncodePending<Op>(w: Writer, s: SavedStore<Op>)
    modifies w
    ensures w.buf == old(w.buf) + Pending().encode((s.fuel, (s.pendingArity, (s.pendingLifted, s.components))))
  {
    hide Pair, Vector, Optional, Long, LiftedCalls, Components;
    w.Put(Optional(Long()).encode(s.fuel));
    ghost var base := w.buf;
    w.Put(Optional(U64).encode(s.pendingArity));
    w.Put(Optional(LiftedCalls()).encode(s.pendingLifted));
    w.PutAll(Components(), s.components);
    ThreeEncode(base, Optional(U64), Optional(LiftedCalls()), Vector(Components()), s.pendingArity, s.pendingLifted, s.components);
    PairEncodes(old(w.buf), Optional(Long()), Pair(Optional(U64), Pair(Optional(LiftedCalls()), Vector(Components()))),
                s.fuel, (s.pendingArity, (s.pendingLifted, s.components)));
  }

  method EncodeRun<Op>(w: Writer, op: Codec<Op>, s: SavedStore<Op>)
    modifies w
    ensures w.buf == old(w.buf) + RunState(op).encode(SplitStore(s).1)
  {
    hide Pair, Vector, Instances, Stacks, Frames, Pending;
    w.PutAll(Instances(op), s.instances);
    ghost var base := w.buf;
    w.Put(Stacks().encode(s.stack));
    w.PutAll(Frames(), s.frames);
    EncodePending(w, s);
    ghost var pending := (s.fuel, (s.pendingArity, (s.pendingLifted, s.components)));
    ThreeEncode(base, Stacks(), Vector(Frames()), Pending(), s.stack, s.frames, pending);
    PairEncodes(old(w.buf), Vector(Instances(op)), Pair(Stacks(), Pair(Vector(Frames()), Pending())),
                s.instances, (s.stack, (s.frames, pending)));
  }

  /** Writes a snapshot of a store. */
  method EncodeStore<Op>(w: Writer, op: Codec<Op>, s: SavedStore<Op>)
    modifies w
    ensures w.buf == old(w.buf) + Stores(op).encode(s)
  {
    hide Shared, RunState, Pair;
    w.Put(HEADER);
    EncodeShared(w, s);
    EncodeRun(w, op, s);
    PairEncodes(old(w.buf) + HEADER, Shared(), RunState(op), SplitStore(s).0, SplitStore(s).1);
    ghost var parts := Pair(Shared(), RunState(op)).encode(SplitStore(s));
    assert old(w.buf) + HEADER + parts == old(w.buf) + (HEADER + parts);
  }

  method DecodeSegments(r: Reader) returns (p: Option<SegmentParts>)
    modifies r
    ensures var d := Segments().decode(old(r.buf));
            if d.Some? then p == Some(d.value.0) && r.buf == d.value.1 else p == None
  {
    hide Vector, Blob, FuncTypes, ElemSegments;
    var tags := r.TakeAll(FuncTypes());
    if tags.None? { return None; }
    var elems := r.TakeAll(ElemSegments());
    if elems.None? { return None; }
    var datas := r.TakeAll(Blob(4));
    if datas.None? { return None; }
    p := Some((tags.value, (elems.value, datas.value)));
  }

  /** Reads what instances share, part by part. */
  method DecodeShared(r: Reader) returns (p: Option<SharedParts>)
    modifies r
    ensures var d := Shared().decode(old(r.buf));
            if d.Some? then p == Some(d.value.0) && r.buf == d.value.1 else p == None
  {
    hide Vector, FuncInsts, Tables, Memories, Globals, Segments;
    var funcs := r.TakeAll(FuncInsts());
    if funcs.None? { return None; }
    var tables := r.TakeAll(Tables());
    if tables.None? { return None; }
    var memories := r.TakeAll(Memories());
    if memories.None? { return None; }
    var globals := r.TakeAll(Globals());
    if globals.None? { return None; }
    var segments := DecodeSegments(r);
    if segments.None? { return None; }
    p := Some((funcs.value, (tables.value, (memories.value, (globals.value, segments.value)))));
  }

  method DecodePending(r: Reader) returns (p: Option<PendingParts>)
    modifies r
    ensures var d := Pending().decode(old(r.buf));
            if d.Some? then p == Some(d.value.0) && r.buf == d.value.1 else p == None
  {
    hide Vector, Optional, Long, LiftedCalls, Components;
    var fuel := r.Take(Optional(Long()));
    if fuel.None? { return None; }
    var pendingArity := r.Take(Optional(U64));
    if pendingArity.None? { return None; }
    var pendingLifted := r.Take(Optional(LiftedCalls()));
    if pendingLifted.None? { return None; }
    var components := r.TakeAll(Components());
    if components.None? { return None; }
    p := Some((fuel.value, (pendingArity.value, (pendingLifted.value, components.value))));
  }

  /** Reads instances and the paused run. */
  method DecodeRun<Op>(r: Reader, op: Codec<Op>) returns (p: Option<RunParts<Op>>)
    modifies r
    ensures var d := RunState(op).decode(old(r.buf));
            if d.Some? then p == Some(d.value.0) && r.buf == d.value.1 else p == None
  {
    hide Vector, Instances, Stacks, Frames, Pending;
    var instances := r.TakeAll(Instances(op));
    if instances.None? { return None; }
    var stack := r.Take(Stacks());
    if stack.None? { return None; }
    var frames := r.TakeAll(Frames());
    if frames.None? { return None; }
    var pending := DecodePending(r);
    if pending.None? { return None; }
    p := Some((instances.value, (stack.value, (frames.value, pending.value))));
  }

  /** Reads a snapshot; None where the source panics. */
  method DecodeStore<Op>(r: Reader, op: Codec<Op>) returns (s: Option<SavedStore<Op>>)
    modifies r
    ensures var d := Stores(op).decode(old(r.buf));
            if d.Some? then s == Some(d.value.0) && r.buf == d.value.1 else s == None
  {
    hide Shared, RunState;
    if !(HEADER <= r.buf) {
      return None;
    }
    r.buf := r.buf[|HEADER|..];
    var a := DecodeShared(r);
    if a.None? { return None; }
    var b := DecodeRun(r, op);
    if b.None? { return None; }
    s := Some(JoinStore((a.value, b.value)));
  }

  /** What was written is read back, with what follows it left. */
  method SaveAndRestore<Op(!new)>(op: Codec<Op>, s: SavedStore<Op>) returns (bytes: Bytes, r: Option<SavedStore<Op>>)
    requires RoundTrips(op) && Stores(op).valid(s)
    ensures bytes == Stores(op).encode(s) && r == Some(s)
  {
    hide RoundTrips, Stores;
    var w := new Writer();
    EncodeStore(w, op, s);
    bytes := w.buf;
    assert [] + Stores(op).encode(s) == Stores(op).encode(s) == Stores(op).encode(s) + [];
    var reader := new Reader(bytes);
    StoresRoundTrip(op);
    RoundTrip(Stores(op), s, []);
    r := DecodeStore(reader, op);
  }
}
