/** Self-delimiting byte encodings and how they combine (src/snapshot.rs: the
    `Snapshot` implementations of numbers, options, pairs, vectors and maps).
    An encoder gives bytes; a decoder takes a buffer and gives a value and what
    is left, or None where the source panics. */
module Codec {
  import opened Wasm
  import opened Runtime

  type Bytes = seq<byte>

  /** `valid` says which values the encoding keeps: those in the range of the
      source's type, with lengths that fit their 32-bit counts. */
  datatype Codec<!T> = Codec(
    encode: T -> Bytes,
    decode: Bytes -> Option<(T, Bytes)>,
    valid: T -> bool)

  /** Decoding what was encoded gives the value back and leaves what follows. */
  ghost predicate RoundTrips<T(!new)>(c: Codec<T>) {
    forall x: T, rest: Bytes :: c.valid(x) ==> c.decode(c.encode(x) + rest) == Some((x, rest))
  }

  lemma RoundTrip<T(!new)>(c: Codec<T>, x: T, rest: Bytes)
    requires RoundTrips(c) && c.valid(x)
    ensures c.decode(c.encode(x) + rest) == Some((x, rest))
  {
  }

  /** Such an encoding is injective, and no encoding is a proper prefix of
      another: whatever follows, the value and where it ends are determined. */
  lemma PrefixFree<T(!new)>(c: Codec<T>, x: T, y: T, r: Bytes, s: Bytes)
    requires RoundTrips(c) && c.valid(x) && c.valid(y) && c.encode(x) + r == c.encode(y) + s
    ensures x == y && r == s
  {
    RoundTrip(c, x, r);
    RoundTrip(c, y, s);
  }

  // ----- numbers -----

  /** Little-endian numbers of a fixed width. */
  function Unsigned(width: nat): Codec<nat> {
    Codec(
      (v: nat) => ToLE(v, width),
      (buf: Bytes) => if |buf| < width then None else Some((FromLE(buf[..width]), buf[width..])),
      (v: nat) => v < Power(width))
  }

  function Power(width: nat): nat {
    if width == 0 then 1 else 0x100 * Power(width - 1)
  }

  lemma {:induction false} FromToLE(v: nat, width: nat)
    requires v < Power(width)
    ensures FromLE(ToLE(v, width)) == v
  {
    if width > 0 {
      FromToLE(v / 0x100, width - 1);
      assert ToLE(v, width)[1..] == ToLE(v / 0x100, width - 1);
    }
  }

  lemma UnsignedRoundTrips(width: nat)
    ensures RoundTrips(Unsigned(width))
  {
    var c := Unsigned(width);
    forall x: nat, rest: Bytes | c.valid(x) ensures c.decode(c.encode(x) + rest) == Some((x, rest)) {
      FromToLE(x, width);
      assert (ToLE(x, width) + rest)[..width] == ToLE(x, width) && (ToLE(x, width) + rest)[width..] == rest;
    }
  }

  const U16: Codec<nat> := Unsigned(2)
  const U32: Codec<nat> := Unsigned(4)
  const U64: Codec<nat> := Unsigned(8)

  // ----- combinations -----

  /** Values in bijection with values of another encoding. */
  function Iso<A, B>(c: Codec<A>, into: A -> B, from: B -> A): Codec<B> {
    Codec(
      (b: B) => c.encode(from(b)),
      (buf: Bytes) => match c.decode(buf) case None => None case Some((a, rest)) => Some((into(a), rest)),
      (b: B) => c.valid(from(b)))
  }

  lemma IsoRoundTrips<A(!new), B(!new)>(c: Codec<A>, into: A -> B, from: B -> A)
    requires RoundTrips(c) && forall b: B :: c.valid(from(b)) ==> into(from(b)) == b
    ensures RoundTrips(Iso(c, into, from))
  {
    var d := Iso(c, into, from);
    forall b: B, rest: Bytes | d.valid(b) ensures d.decode(d.encode(b) + rest) == Some((b, rest)) {
      RoundTrip(c, from(b), rest);
    }
  }

  /** The values of one case of a type, in bijection with another encoding's. */
  function Case<A, B>(c: Codec<A>, into: A -> B, from: B -> Option<A>): Codec<B> {
    Codec(
      (b: B) => if from(b).Some? then c.encode(from(b).value) else [],
      (buf: Bytes) => match c.decode(buf) case None => None case Some((a, rest)) => Some((into(a), rest)),
      (b: B) => from(b).Some? && c.valid(from(b).value))
  }

  lemma CaseRoundTrips<A(!new), B(!new)>(c: Codec<A>, into: A -> B, from: B -> Option<A>)
    requires RoundTrips(c) && forall b: B :: from(b).Some? && c.valid(from(b).value) ==> into(from(b).value) == b
    ensures RoundTrips(Case(c, into, from))
  {
    var d := Case(c, into, from);
    forall b: B, rest: Bytes | d.valid(b) ensures d.decode(d.encode(b) + rest) == Some((b, rest)) {
      RoundTrip(c, from(b).value, rest);
    }
  }

  function Pair<A, B>(a: Codec<A>, b: Codec<B>): Codec<(A, B)> {
    Codec(
      (p: (A, B)) => a.encode(p.0) + b.encode(p.1),
      (buf: Bytes) =>
        match a.decode(buf)
        case None => None
        case Some((x, rest)) =>
          match b.decode(rest)
          case None => None
          case Some((y, rest')) => Some(((x, y), rest')),
      (p: (A, B)) => a.valid(p.0) && b.valid(p.1))
  }

  lemma PairRoundTrips<A(!new), B(!new)>(a: Codec<A>, b: Codec<B>)
    requires RoundTrips(a) && RoundTrips(b)
    ensures RoundTrips(Pair(a, b))
  {
    var c := Pair(a, b);
    forall p: (A, B), rest: Bytes | c.valid(p) ensures c.decode(c.encode(p) + rest) == Some((p, rest)) {
      assert a.encode(p.0) + b.encode(p.1) + rest == a.encode(p.0) + (b.encode(p.1) + rest);
      RoundTrip(a, p.0, b.encode(p.1) + rest);
      RoundTrip(b, p.1, rest);
    }
  }

  /** A tag byte, then what its case holds. */
  function Tagged<T>(tagOf: T -> byte, cases: byte -> Option<Codec<T>>): Codec<T> {
    Codec(
      (x: T) => [tagOf(x)] + (if cases(tagOf(x)).Some? then cases(tagOf(x)).value.encode(x) else []),
      (buf: Bytes) => if buf == [] || cases(buf[0]).None? then None else cases(buf[0]).value.decode(buf[1..]),
      (x: T) => cases(tagOf(x)).Some? && cases(tagOf(x)).value.valid(x))
  }

  lemma AfterTag(tag: byte, bs: Bytes, rest: Bytes)
    ensures ([tag] + bs + rest)[0] == tag && ([tag] + bs + rest)[1..] == bs + rest
  {
  }

  lemma TaggedRoundTrips<T(!new)>(tagOf: T -> byte, cases: byte -> Option<Codec<T>>)
    requires forall t: byte :: cases(t).Some? ==> RoundTrips(cases(t).value)
    ensures RoundTrips(Tagged(tagOf, cases))
  {
    var c := Tagged(tagOf, cases);
    forall x: T, rest: Bytes | c.valid(x) ensures c.decode(c.encode(x) + rest) == Some((x, rest)) {
      hide RoundTrips;
      var d := cases(tagOf(x)).value;
      AfterTag(tagOf(x), d.encode(x), rest);
      RoundTrip(d, x, rest);
    }
  }

  /** A case that holds nothing. */
  function Constant<T(==)>(v: T): Codec<T> {
    Codec((x: T) => [], (buf: Bytes) => Some((v, buf)), (x: T) => x == v)
  }

  lemma NothingBefore(rest: Bytes)
    ensures [] + rest == rest
  {
  }

  lemma ConstantRoundTrips<T(!new)>(v: T)
    ensures RoundTrips(Constant(v))
  {
    var c := Constant(v);
    forall x: T, rest: Bytes | c.valid(x) ensures c.decode(c.encode(x) + rest) == Some((x, rest)) {
      NothingBefore(rest);
    }
  }

  /** The source writes 0 or 1, and reads any other byte as 1. */
  const Bool: Codec<bool> := Codec(
    (b: bool) => [if b then 1 else 0],
    (buf: Bytes) => if buf == [] then None else Some((buf[0] != 0, buf[1..])),
    (b: bool) => true)

  lemma BoolRoundTrips()
    ensures RoundTrips(Bool)
  {
    forall b: bool, rest: Bytes ensures Bool.decode(Bool.encode(b) + rest) == Some((b, rest)) {
      assert ([if b then 1 else 0] + rest)[1..] == rest;
    }
  }

  function Optional<T>(c: Codec<T>): Codec<Option<T>> {
    Codec(
      (x: Option<T>) => if x.Some? then [1] + c.encode(x.value) else [0],
      (buf: Bytes) =>
        if buf == [] then None
        else if buf[0] == 0 then Some((None, buf[1..]))
        else match c.decode(buf[1..]) case None => None case Some((x, rest)) => Some((Some(x), rest)),
      (x: Option<T>) => x.Some? ==> c.valid(x.value))
  }

  lemma OptionalRoundTrips<T(!new)>(c: Codec<T>)
    requires RoundTrips(c)
    ensures RoundTrips(Optional(c))
  {
    var d := Optional(c);
    forall x: Option<T>, rest: Bytes | d.valid(x) ensures d.decode(d.encode(x) + rest) == Some((x, rest)) {
      if x.Some? {
        assert ([1] + c.encode(x.value) + rest)[1..] == c.encode(x.value) + rest;
        RoundTrip(c, x.value, rest);
      } else {
        assert ([0] + rest)[1..] == rest;
      }
    }
  }

  // ----- vectors -----

  function EncodeItems<T>(c: Codec<T>, xs: seq<T>): Bytes {
    if xs == [] then [] else EncodeItems(c, xs[..|xs| - 1]) + c.encode(xs[|xs| - 1])
  }

  function DecodeItems<T>(c: Codec<T>, n: nat, buf: Bytes): Option<(seq<T>, Bytes)> {
    if n == 0 then Some(([], buf))
    else
      match DecodeItems(c, n - 1, buf)
      case None => None
      case Some((xs, rest)) =>
        match c.decode(rest)
        case None => None
        case Some((x, rest')) => Some((xs + [x], rest'))
  }

  /** A 32-bit count, then that many items. */
  function Vector<T>(c: Codec<T>): Codec<seq<T>> {
    Codec(
      (xs: seq<T>) => U32.encode(|xs|) + EncodeItems(c, xs),
      (buf: Bytes) => match U32.decode(buf) case None => None case Some((n, rest)) => DecodeItems(c, n, rest),
      (xs: seq<T>) => |xs| < TWO_TO_32 && forall i :: 0 <= i < |xs| ==> c.valid(xs[i]))
  }

  lemma {:induction false} ItemsRoundTrip<T(!new)>(c: Codec<T>, xs: seq<T>, rest: Bytes)
    requires RoundTrips(c) && forall i :: 0 <= i < |xs| ==> c.valid(xs[i])
    ensures DecodeItems(c, |xs|, EncodeItems(c, xs) + rest) == Some((xs, rest))
    decreases |xs|
  {
    if xs == [] {
      assert [] + rest == rest;
    } else {
      var (init, last) := (xs[..|xs| - 1], xs[|xs| - 1]);
      assert EncodeItems(c, xs) + rest == EncodeItems(c, init) + (c.encode(last) + rest);
      ItemsRoundTrip(c, init, c.encode(last) + rest);
      RoundTrip(c, last, rest);
      assert xs == init + [last];
    }
  }

  lemma VectorRoundTrips<T(!new)>(c: Codec<T>)
    requires RoundTrips(c)
    ensures RoundTrips(Vector(c))
  {
    var d := Vector(c);
    forall xs: seq<T>, rest: Bytes | d.valid(xs) ensures d.decode(d.encode(xs) + rest) == Some((xs, rest)) {
      VectorBack(c, xs, rest);
    }
  }

  lemma VectorBack<T(!new)>(c: Codec<T>, xs: seq<T>, rest: Bytes)
    requires RoundTrips(c) && Vector(c).valid(xs)
    ensures Vector(c).decode(Vector(c).encode(xs) + rest) == Some((xs, rest))
  {
    hide RoundTrips, EncodeItems, DecodeItems, Unsigned;
    var (count, items) := (U32.encode(|xs|), EncodeItems(c, xs));
    assert count + items + rest == count + (items + rest);
    CountBack(|xs|, items + rest);
    ItemsRoundTrip(c, xs, rest);
  }

  lemma CountBack(n: nat, rest: Bytes)
    requires n < TWO_TO_32
    ensures U32.decode(U32.encode(n) + rest) == Some((n, rest))
  {
    UnsignedRoundTrips(4);
    RoundTrip(U32, n, rest);
  }

  // ----- byte strings, maps and fixed bytes -----

  /** A count of `width` bytes, then that many bytes. */
  function Blob(width: nat): Codec<Bytes> {
    Codec(
      (xs: Bytes) => ToLE(|xs|, width) + xs,
      (buf: Bytes) =>
        if |buf| < width then None
        else
          var n := FromLE(buf[..width]);
          if |buf| < width + n then None else Some((buf[width..width + n], buf[width + n..])),
      (xs: Bytes) => |xs| < Power(width))
  }

  lemma BlobRoundTrips(width: nat)
    ensures RoundTrips(Blob(width))
  {
    var c := Blob(width);
    forall xs: Bytes, rest: Bytes | c.valid(xs) ensures c.decode(c.encode(xs) + rest) == Some((xs, rest)) {
      var buf := ToLE(|xs|, width) + xs + rest;
      FromToLE(|xs|, width);
      assert buf[..width] == ToLE(|xs|, width);
      assert buf[width..width + |xs|] == xs && buf[width + |xs|..] == rest;
    }
  }

  /** Bytes of a fixed length. */
  function Exactly(n: nat): Codec<Bytes> {
    Codec(
      (xs: Bytes) => xs,
      (buf: Bytes) => if |buf| < n then None else Some((buf[..n], buf[n..])),
      (xs: Bytes) => |xs| == n)
  }

  lemma ExactlyRoundTrips(n: nat)
    ensures RoundTrips(Exactly(n))
  {
    var c := Exactly(n);
    forall xs: Bytes, rest: Bytes | c.valid(xs) ensures c.decode(c.encode(xs) + rest) == Some((xs, rest)) {
      assert (xs + rest)[..n] == xs && (xs + rest)[n..] == rest;
    }
  }

  /** Bytes that must come first. */
  function Marked<T>(mark: Bytes, c: Codec<T>): Codec<T> {
    Codec(
      (x: T) => mark + c.encode(x),
      (buf: Bytes) => if mark <= buf then c.decode(buf[|mark|..]) else None,
      (x: T) => c.valid(x))
  }

  lemma MarkedRoundTrips<T(!new)>(mark: Bytes, c: Codec<T>)
    requires RoundTrips(c)
    ensures RoundTrips(Marked(mark, c))
  {
    var d := Marked(mark, c);
    forall x: T, rest: Bytes | d.valid(x) ensures d.decode(d.encode(x) + rest) == Some((x, rest)) {
      assert (mark + c.encode(x) + rest)[|mark|..] == c.encode(x) + rest;
      RoundTrip(c, x, rest);
    }
  }

  /** Lexicographic order on byte strings, in which an ordered map lists its keys. */
  predicate KeyLess(a: Bytes, b: Bytes) {
    if b == [] then false
    else if a == [] then true
    else a[0] < b[0] || (a[0] == b[0] && KeyLess(a[1..], b[1..]))
  }

  lemma {:induction false} KeyOrder(a: Bytes, b: Bytes, c: Bytes)
    ensures a == b || KeyLess(a, b) || KeyLess(b, a)
    ensures !(KeyLess(a, b) && KeyLess(b, a))
    ensures KeyLess(a, b) && KeyLess(b, c) ==> KeyLess(a, c)
    decreases |a| + |b| + |c|
  {
    if a != [] && b != [] {
      assert a == [a[0]] + a[1..] && b == [b[0]] + b[1..];
      KeyOrder(a[1..], b[1..], if c != [] then c[1..] else []);
    }
  }

  predicate IsLeast(k: Bytes, keys: set<Bytes>) {
    k in keys && forall j :: j in keys && j != k ==> KeyLess(k, j)
  }

  lemma {:induction false} LeastExists(keys: set<Bytes>)
    requires keys != {}
    ensures exists k: Bytes :: IsLeast(k, keys)
    decreases keys
  {
    var k :| k in keys;
    var rest := keys - {k};
    if rest != {} {
      LeastExists(rest);
      var l :| IsLeast(l, rest);
      forall j | j in keys { KeyOrder(k, l, j); }
      assert IsLeast(if KeyLess(l, k) then l else k, keys);
    } else {
      assert forall j :: j in keys && j != k ==> j in rest;
      assert IsLeast(k, keys);
    }
  }

  lemma LeastUnique(keys: set<Bytes>, a: Bytes, b: Bytes)
    requires IsLeast(a, keys) && IsLeast(b, keys)
    ensures a == b
  {
    KeyOrder(a, b, b);
  }

  /** A map's entries in the order of their keys. */
  function Listed<V>(m: map<Bytes, V>): (r: seq<(Bytes, V)>)
    ensures Built(r) == m
    decreases m.Keys
  {
    if m == map[] then []
    else
      LeastExists(m.Keys);
      assert forall a, b :: IsLeast(a, m.Keys) && IsLeast(b, m.Keys) ==> a == b by {
        forall a, b | IsLeast(a, m.Keys) && IsLeast(b, m.Keys) ensures a == b { LeastUnique(m.Keys, a, b); }
      }
      var k :| IsLeast(k, m.Keys);
      var rest := m - {k};
      BuiltFirst((k, m[k]), Listed(rest));
      assert m == map[k := m[k]] + rest;
      [(k, m[k])] + Listed(rest)
  }

  /** The map that inserting the entries one after the other makes. */
  function Built<V>(entries: seq<(Bytes, V)>): map<Bytes, V> {
    if entries == [] then map[]
    else
      var last := entries[|entries| - 1];
      Built(entries[..|entries| - 1])[last.0 := last.1]
  }

  lemma UpdateLast<K, V>(a: map<K, V>, b: map<K, V>, k: K, v: V)
    ensures (a + b)[k := v] == a + b[k := v]
  {
  }

  lemma {:induction false} BuiltFirst<V>(e: (Bytes, V), entries: seq<(Bytes, V)>)
    ensures Built([e] + entries) == map[e.0 := e.1] + Built(entries)
    decreases |entries|
  {
    if entries == [] {
      assert [e] + entries == [e] && [e][..0] == [];
    } else {
      var n := |entries| - 1;
      assert ([e] + entries)[..n + 1] == [e] + entries[..n] && ([e] + entries)[n + 1] == entries[n];
      BuiltFirst(e, entries[..n]);
      UpdateLast(map[e.0 := e.1], Built(entries[..n]), entries[n].0, entries[n].1);
    }
  }

  /** An ordered map, as a vector of its entries. */
  function OrderedMap<V>(key: Codec<Bytes>, value: Codec<V>): Codec<map<Bytes, V>> {
    Iso(Vector(Pair(key, value)), Built, Listed)
  }

  lemma OrderedMapRoundTrips<V(!new)>(key: Codec<Bytes>, value: Codec<V>)
    requires RoundTrips(key) && RoundTrips(value)
    ensures RoundTrips(OrderedMap(key, value))
  {
    hide RoundTrips;
    PairRoundTrips(key, value);
    VectorRoundTrips(Pair(key, value));
    IsoRoundTrips<seq<(Bytes, V)>, map<Bytes, V>>(Vector(Pair(key, value)), Built, Listed);
  }
}
