/** The value stack: a buffer that never grows, with a cursor and without bounds
    checks (src/runtime/stack.rs). What the original leaves to its callers is
    each method's precondition; `Safety` and `Capacity` establish them for
    validated programs. */
module Stack {
  import opened Wasm
  import opened Runtime
  import Machine

  class ValueStack {
    const inner: array<Raw>
    var cursor: nat

    ghost predicate Valid()
      reads this
    {
      cursor <= inner.Length
    }

    /** The live values, the top last. */
    ghost function Contents(): (vs: seq<Raw>)
      requires Valid()
      reads this, inner
      ensures |vs| == cursor
    {
      inner[..cursor]
    }

    constructor WithCapacity(cap: nat)
      ensures Valid() && fresh(inner) && inner.Length == cap && Contents() == []
    {
      inner := new Raw[cap](_ => 0);
      cursor := 0;
    }

    /** A stack restored from a snapshot's live values. Its capacity is not the
        one of the stack that was saved. */
    constructor FromSnapshot(data: seq<Raw>)
      ensures Valid() && fresh(inner) && Contents() == data
      ensures inner.Length == if |data| < 1024 then 1024 else |data|
    {
      var capacity := if |data| < 1024 then 1024 else |data|;
      inner := new Raw[capacity](i requires 0 <= i => if i < |data| then data[i] else 0);
      cursor := |data|;
      new;
      assert inner[..|data|] == data;
    }

    method Push(v: Raw)
      requires Valid() && cursor < inner.Length
      modifies this`cursor, inner
      ensures Valid() && Contents() == old(Contents()) + [v]
    {
      inner[cursor] := v;
      cursor := cursor + 1;
    }

    method Pop() returns (v: Raw)
      requires Valid() && cursor > 0
      modifies this`cursor
      ensures Valid() && old(Contents()) == Contents() + [v]
    {
      cursor := cursor - 1;
      v := inner[cursor];
    }

    method ExtendFromSlice(vs: seq<Raw>)
      requires Valid() && cursor + |vs| <= inner.Length
      modifies this`cursor, inner
      ensures Valid() && Contents() == old(Contents()) + vs
    {
      forall i | 0 <= i < |vs| {
        inner[cursor + i] := vs[i];
      }
      cursor := cursor + |vs|;
    }

    method Truncate(len: nat)
      requires Valid() && len <= cursor
      modifies this`cursor
      ensures Valid() && Contents() == old(Contents())[..len]
    {
      cursor := len;
    }

    method Clear()
      modifies this`cursor
      ensures Valid() && Contents() == []
    {
      cursor := 0;
    }

    method SliceFrom(start: nat) returns (vs: seq<Raw>)
      requires Valid() && start <= cursor
      ensures vs == Contents()[start..]
    {
      vs := inner[start..cursor];
    }

    /** Takes the `n` topmost values off, and gives them in stack order. */
    method PopN(n: nat) returns (vs: seq<Raw>)
      requires Valid() && n <= cursor
      modifies this`cursor
      ensures Valid() && vs == Top(old(Contents()), n) && Contents() == Below(old(Contents()), n)
    {
      cursor := cursor - n;
      vs := inner[cursor..cursor + n];
    }

    /** Moves `count` values as if through a copy: the ranges may overlap. */
    method CopyWithin(src: nat, end: nat, dest: nat)
      requires src <= end <= inner.Length && dest + (end - src) <= inner.Length
      modifies inner
      ensures inner[dest..dest + (end - src)] == old(inner[src..end])
      ensures forall i :: 0 <= i < inner.Length && !(dest <= i < dest + (end - src)) ==> inner[i] == old(inner[i])
    {
      forall i | 0 <= i < end - src {
        inner[dest + i] := inner[src + i];
      }
    }

    /** Keeps the top `keep` values and discards the `drop` values under them. */
    method KeepTop(keep: nat, drop: nat)
      requires Valid() && keep + drop <= cursor
      modifies this`cursor, inner
      ensures Valid() && Contents() == Machine.KeepTop(old(Contents()), keep, drop)
    {
      if drop > 0 {
        CopyWithin(cursor - keep, cursor, cursor - keep - drop);
        cursor := cursor - drop;
        assert Contents() == inner[..cursor - keep] + inner[cursor - keep..cursor];
        assert inner[..cursor - keep] == old(inner[..])[..cursor - keep];
      } else {
        assert Contents() == Below(Contents(), keep) + Top(Contents(), keep);
      }
    }

    /** What a snapshot stores of the stack. */
    method SnapshotData() returns (data: seq<Raw>)
      requires Valid()
      ensures data == Contents()
    {
      data := inner[..cursor];
    }
  }
}
