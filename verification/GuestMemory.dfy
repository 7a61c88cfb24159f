/** Bounds-checked guest memory (src/runtime/memory.rs: read_bytes, write_bytes). */
module GuestMemory {
  import opened Wasm
  import opened Runtime

  predicate InBounds(mem: seq<byte>, at: nat, n: nat) { at + n <= |mem| }

  /** The memory with `bs` written at `at`. */
  function Written(mem: seq<byte>, at: nat, bs: seq<byte>): (r: seq<byte>)
    requires at + |bs| <= |mem|
    ensures |r| == |mem| && r[at..at + |bs|] == bs
  {
    mem[..at] + bs + mem[at + |bs|..]
  }

  /** Writes bytes into memory in place. */
  method WriteBytes(memory: array<byte>, at: nat, bs: seq<byte>)
    requires at + |bs| <= memory.Length
    modifies memory
    ensures memory[..] == Written(old(memory[..]), at, bs)
  {
    var i := 0;
    while i < |bs|
      invariant i <= |bs|
      invariant memory[..] == Written(old(memory[..]), at, bs[..i])
    {
      memory[at + i] := bs[i];
      i := i + 1;
    }
    assert bs[..i] == bs;
  }

  lemma WrittenNothing(mem: seq<byte>, at: nat)
    requires at <= |mem|
    ensures Written(mem, at, []) == mem
  {
  }

  lemma WrittenTwice(mem: seq<byte>, at: nat, bs: seq<byte>, cs: seq<byte>)
    requires at + |bs| + |cs| <= |mem|
    ensures Written(Written(mem, at, bs), at + |bs|, cs) == Written(mem, at, bs + cs)
  {
  }

  /** Writing elsewhere keeps what is there. */
  lemma WrittenApart(mem: seq<byte>, at: nat, bs: seq<byte>, i: nat)
    requires at + |bs| <= |mem| && i < |mem| && (i < at || at + |bs| <= i)
    ensures Written(mem, at, bs)[i] == mem[i]
  {
  }

  lemma LEBack(v: nat)
    requires v < TWO_TO_32
    ensures |ToLE(v, 4)| == 4 && FromLE(ToLE(v, 4)) == v
  {
    hide ToLE, FromLE;
    LEEmpty(v / 0x1_0000_0000);
    LEStep(v, 3);
    LEStep(v / 0x100, 2);
    LEStep(v / 0x1_0000, 1);
    LEStep(v / 0x100_0000, 0);
  }

  lemma LEEmpty(v: nat)
    ensures ToLE(v, 0) == [] && FromLE([]) == 0
  {
  }

  lemma LEStep(v: nat, n: nat)
    ensures |ToLE(v, n + 1)| == 1 + |ToLE(v / 0x100, n)|
    ensures FromLE(ToLE(v, n + 1)) == v % 0x100 + 0x100 * FromLE(ToLE(v / 0x100, n))
  {
    assert ToLE(v, n + 1)[1..] == ToLE(v / 0x100, n);
  }

  lemma LongBack(v: nat)
    requires v < TWO_TO_64
    ensures |ToLE(v, 8)| == 8 && FromLE(ToLE(v, 8)) == v
  {
    hide ToLE, FromLE;
    LEBack(v / 0x1_0000_0000);
    LEStep(v, 7);
    LEStep(v / 0x100, 6);
    LEStep(v / 0x1_0000, 5);
    LEStep(v / 0x100_0000, 4);
  }
}
