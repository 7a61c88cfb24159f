/** Variable-length integers (src/leb128.rs) against the grammar of section 5.2.2
    of the WebAssembly Core Specification. */
module Leb128 {
  import opened Wasm

  // ----- the grammar -----

  /** The value that the bytes, all of them, encode as an unsigned integer of `n` bits. */
  function Unsigned(n: nat, bs: seq<byte>): Option<nat> {
    if bs == [] then None
    else if bs[0] < 0x80 then
      if |bs| == 1 && bs[0] < Pow2(n) then Some(bs[0]) else None
    else if n > 7 then
      var m := Unsigned(n - 7, bs[1..]);
      if m.Some? then Some(0x80 * m.value + (bs[0] - 0x80)) else None
    else None
  }

  /** The same for signed integers. */
  function Signed(n: nat, bs: seq<byte>): Option<int>
    requires n > 0
  {
    if bs == [] then None
    else if bs[0] < 0x40 then
      if |bs| == 1 && bs[0] < Pow2(n - 1) then Some(bs[0]) else None
    else if bs[0] < 0x80 then
      if |bs| == 1 && bs[0] >= 0x80 - Pow2(n - 1) then Some(bs[0] as int - 0x80) else None
    else if n > 7 then
      var m := Signed(n - 7, bs[1..]);
      if m.Some? then Some(0x80 * m.value + (bs[0] - 0x80)) else None
    else None
  }

  // ----- what an encoding looks like -----

  /** Every byte but the last has its high bit set. */
  predicate Terminated(bs: seq<byte>) {
    bs != [] && bs[|bs| - 1] < 0x80 && forall i :: 0 <= i < |bs| - 1 ==> bs[i] >= 0x80
  }

  lemma {:induction false} EncodingsTerminate(n: nat, bs: seq<byte>)
    ensures Unsigned(n, bs).Some? ==> Terminated(bs)
    ensures n > 0 && Signed(n, bs).Some? ==> Terminated(bs)
    decreases bs
  {
    if bs != [] && bs[0] >= 0x80 && n > 7 {
      EncodingsTerminate(n - 7, bs[1..]);
      forall i | 0 <= i < |bs| - 1 && Terminated(bs[1..]) ensures bs[i] >= 0x80 {
        if i > 0 { assert bs[1..][i - 1] == bs[i]; }
      }
    }
  }

  /** At most one prefix of a buffer is an encoding. */
  lemma PrefixUnique(buf: seq<byte>, j: nat, k: nat)
    requires j <= |buf| && k <= |buf| && Terminated(buf[..j]) && Terminated(buf[..k])
    ensures j == k
  {
    assert buf[..j][j - 1] == buf[j - 1] && buf[..k][k - 1] == buf[k - 1];
  }

  // ----- sums -----

  /** The base-128 number whose digits are the low seven bits of the bytes. */
  function Sum(bs: seq<byte>): nat {
    if bs == [] then 0 else bs[0] % 0x80 + 0x80 * Sum(bs[1..])
  }

  lemma {:induction false} SumAppend(bs: seq<byte>, b: byte)
    ensures Sum(bs + [b]) == Sum(bs) + (b % 0x80) * Pow2(7 * |bs|)
  {
    if bs == [] {
      assert [] + [b] == [b] && [b][1..] == [];
    } else {
      assert (bs + [b])[1..] == bs[1..] + [b];
      SumAppend(bs[1..], b);
      Pow2Seven(7 * |bs| - 7);
      Distribute(Sum(bs[1..]), b % 0x80, Pow2(7 * |bs| - 7));
    }
  }

  lemma Distribute(s: nat, d: nat, p: nat)
    ensures 0x80 * (s + d * p) == 0x80 * s + d * (0x80 * p)
  {
  }

  lemma Pow2Seven(n: nat)
    ensures Pow2(n + 7) == 0x80 * Pow2(n)
  {
    assert Pow2(n + 7) == 2 * Pow2(n + 6) == 4 * Pow2(n + 5) == 8 * Pow2(n + 4) == 16 * Pow2(n + 3);
    assert Pow2(n + 3) == 2 * Pow2(n + 2) == 4 * Pow2(n + 1);
  }

  /** Exactly the terminated sequences whose last byte fits the bits that are left
      encode an unsigned integer, and it is the sum of their digits. */
  lemma {:induction false} UnsignedIsSum(n: nat, bs: seq<byte>)
    requires n > 0
    ensures Unsigned(n, bs) ==
            if Terminated(bs) && 7 * (|bs| - 1) < n && bs[|bs| - 1] < Pow2(n - 7 * (|bs| - 1)) then Some(Sum(bs)) else None
    decreases bs
  {
    if bs != [] {
      if bs[0] < 0x80 {
        assert Terminated(bs) ==> |bs| == 1;
        if |bs| == 1 { assert bs[1..] == []; }
      } else if n > 7 {
        UnsignedIsSum(n - 7, bs[1..]);
        TerminatedTail(bs);
      }
    }
  }

  lemma TerminatedTail(bs: seq<byte>)
    requires bs != [] && bs[0] >= 0x80
    ensures Terminated(bs) <==> Terminated(bs[1..])
  {
    if Terminated(bs[1..]) {
      forall i | 0 <= i < |bs| - 1 ensures bs[i] >= 0x80 {
        if i > 0 { assert bs[1..][i - 1] == bs[i]; }
      }
    }
  }

  /** The same for signed integers: a last byte with bit 6 set makes them negative. */
  lemma {:induction false} SignedIsSum(n: nat, bs: seq<byte>)
    requires n > 0
    ensures Signed(n, bs) ==
            if Terminated(bs) && 7 * (|bs| - 1) < n && FitsSigned(bs[|bs| - 1], n - 7 * (|bs| - 1))
            then Some(if bs[|bs| - 1] >= 0x40 then Sum(bs) - Pow2(7 * |bs|) else Sum(bs)) else None
    decreases bs
  {
    if bs != [] {
      if bs[0] < 0x80 {
        assert Terminated(bs) ==> |bs| == 1;
        if |bs| == 1 {
          assert bs[1..] == [] && Pow2(7) == 0x80;
        }
      } else if n > 7 {
        SignedIsSum(n - 7, bs[1..]);
        TerminatedTail(bs);
        Pow2Seven(7 * |bs| - 7);
      }
    }
  }

  /** The last byte of a signed integer that has `left` bits left for it. */
  predicate FitsSigned(b: byte, left: nat)
    requires left > 0
  {
    if b < 0x40 then b < Pow2(left - 1) else 0x80 - Pow2(left - 1) <= b < 0x80
  }

  lemma {:induction false} SumBound(bs: seq<byte>)
    ensures Sum(bs) < Pow2(7 * |bs|)
  {
    if bs != [] {
      SumBound(bs[1..]);
      Pow2Seven(7 * |bs| - 7);
    }
  }

  lemma Powers()
    ensures Pow2(1) == 2 && Pow2(4) == 16 && Pow2(3) == 8 && Pow2(0) == 1
    ensures Pow2(7) == 0x80 && Pow2(14) == 0x4000 && Pow2(21) == 0x20_0000 && Pow2(28) == 0x1000_0000
    ensures Pow2(35) == 0x8_0000_0000
    ensures Pow2(42) == 0x400_0000_0000 && Pow2(49) == 0x2_0000_0000_0000 && Pow2(56) == 0x100_0000_0000_0000
    ensures Pow2(63) == 0x8000_0000_0000_0000 && Pow2(70) == 0x40_0000_0000_0000_0000
    ensures Pow2(32) == 0x1_0000_0000 && Pow2(31) == 0x8000_0000 && Pow2(64) == 0x1_0000_0000_0000_0000
  {
    hide Pow2;
    SmallPowers();
    Pow2Seven(0);
    Pow2Seven(7);
    Pow2Seven(14);
    Pow2Seven(21);
    Pow2Seven(28);
    Pow2Seven(35);
    Pow2Seven(42);
    Pow2Seven(49);
    Pow2Seven(56);
    Pow2Seven(63);
    Double(28);
    Double(29);
    Double(30);
    Double(31);
    Double(63);
  }

  lemma SmallPowers()
    ensures Pow2(0) == 1 && Pow2(1) == 2 && Pow2(3) == 8 && Pow2(4) == 16
  {
  }

  lemma Double(n: nat)
    ensures Pow2(n + 1) == 2 * Pow2(n)
  {
  }

  // ----- readers -----

  /** The longest encoding of an integer of this many bits. */
  function MaxLength(bits: nat): nat { if bits == 32 then 5 else 10 }

  /** The outcome of reading: an encoding at the start of the buffer and its
      length, and None exactly when the buffer starts with none. */
  ghost predicate ReadsUnsigned(bits: nat, buf: seq<byte>, r: Option<(nat, nat)>) {
    match r
    case Some((x, n)) => n <= |buf| && Unsigned(bits, buf[..n]) == Some(x)
    case None => forall n :: 0 <= n <= |buf| ==> Unsigned(bits, buf[..n]).None?
  }

  /** Reads an unsigned integer of 32 or 64 bits. */
  method ReadUnsigned(bits: nat, buf: seq<byte>) returns (r: Option<(nat, nat)>)
    requires bits == 32 || bits == 64
    ensures ReadsUnsigned(bits, buf, r)
  {
    hide Pow2, Sum, Unsigned, Signed;
    var x, s := 0, 0;
    var lastMax := if bits == 32 then 0x0F else 0x01;
    NoDigits(buf);
    for i := 0 to |buf|
      invariant s == 7 * i && i <= MaxLength(bits)
      invariant forall j :: 0 <= j < i ==> buf[j] >= 0x80
      invariant i < MaxLength(bits) ==> x == Sum(buf[..i])
    {
      if i >= MaxLength(bits) {
        NoEncoding(bits, buf, i);
        return None;
      }
      var b := buf[i];
      if b < 0x80 {
        if i == MaxLength(bits) - 1 && b > lastMax {
          NotThisLong(bits, buf, i);
          return None;
        }
        LastDigit(bits, buf, i);
        return Some((Shifted(bits, x, b, s), i + 1));
      }
      if i < MaxLength(bits) - 1 { WholeSum(bits, buf, i); }
      x := Shifted(bits, x, b % 0x80, s);
      s := s + 7;
    }
    NoEncoding(bits, buf, |buf|);
    r := None;
  }

  /** `x` with the digit `d` above its low `s` bits, in an integer of `bits` bits.
      The source sets the digit's bits, which `x` leaves clear. */
  function Shifted(bits: nat, x: nat, d: nat, s: nat): nat {
    PositivePower(bits);
    (x + d * Pow2(s)) % Pow2(bits)
  }

  lemma {:induction false} PositivePower(n: nat)
    ensures Pow2(n) > 0
  {
    if n > 0 { PositivePower(n - 1); }
  }

  lemma NoDigits(buf: seq<byte>)
    ensures Sum(buf[..0]) == 0
  {
  }

  lemma SmallMod(v: nat, m: nat)
    requires v < m
    ensures v % m == v
  {
  }

  lemma LastDigit(bits: nat, buf: seq<byte>, i: nat)
    requires (bits == 32 || bits == 64) && i < |buf| && i < MaxLength(bits) && buf[i] < 0x80
    requires i == MaxLength(bits) - 1 ==> buf[i] < (if bits == 32 then 0x10 else 2)
    requires forall j :: 0 <= j < i ==> buf[j] >= 0x80
    ensures Unsigned(bits, buf[..i + 1]) == Some(Shifted(bits, Sum(buf[..i]), buf[i], 7 * i))
  {
    hide Unsigned, Sum, Pow2, Shifted;
    WholeSum(bits, buf, i);
    UnsignedIsSum(bits, buf[..i + 1]);
    LastFits(bits, i, buf[i]);
    assert Terminated(buf[..i + 1]);
    assert buf[i] % 0x80 == buf[i];
  }

  /** A sum that fits is not cut. */
  lemma WholeSum(bits: nat, buf: seq<byte>, i: nat)
    requires (bits == 32 || bits == 64) && i < |buf| && i < MaxLength(bits)
    requires i == MaxLength(bits) - 1 ==> buf[i] < (if bits == 32 then 0x10 else 2)
    ensures Shifted(bits, Sum(buf[..i]), buf[i] % 0x80, 7 * i) == Sum(buf[..i + 1])
  {
    hide Sum, Pow2;
    StepSum(bits, buf, i);
    SmallMod(Sum(buf[..i + 1]), Pow2(bits));
  }

  lemma LastFits(bits: nat, i: nat, b: byte)
    requires (bits == 32 || bits == 64) && i < MaxLength(bits) && b < 0x80
    requires i == MaxLength(bits) - 1 ==> b < (if bits == 32 then 0x10 else 2)
    ensures 7 * i < bits && b < Pow2(bits - 7 * i)
  {
    hide Pow2;
    Powers();
    if i < MaxLength(bits) - 1 { LargePower(bits, i); }
  }

  /** Before the last byte of a longest encoding any digit fits. */
  lemma LargePower(bits: nat, i: nat)
    requires (bits == 32 || bits == 64) && i < MaxLength(bits) - 1
    ensures 7 * i < bits && Pow2(bits - 7 * i) >= 0x80 && (bits - 7 * i > 7 ==> Pow2(bits - 7 * i - 1) >= 0x80)
  {
    hide Pow2;
    var k := bits - 7 * i - 7;
    Pow2Seven(k);
    PositivePower(k);
    Pow2Seven(k - 1);
    PositivePower(k - 1);
  }

  /** One more digit, and how large the sum can be. */
  lemma StepSum(bits: nat, buf: seq<byte>, i: nat)
    requires (bits == 32 || bits == 64) && i < |buf| && i < MaxLength(bits)
    ensures Sum(buf[..i + 1]) == Sum(buf[..i]) + buf[i] % 0x80 * Pow2(7 * i)
    ensures Sum(buf[..i]) < Pow2(7 * i) && (i < MaxLength(bits) - 1 ==> Sum(buf[..i + 1]) < Pow2(bits))
    ensures i == MaxLength(bits) - 1 && buf[i] < (if bits == 32 then 0x10 else 2) ==> Sum(buf[..i + 1]) < Pow2(bits)
  {
    hide Sum, Pow2;
    assert buf[..i + 1] == buf[..i] + [buf[i]];
    SumAppend(buf[..i], buf[i]);
    SumBound(buf[..i]);
    SumBound(buf[..i + 1]);
    Powers();
    if i < MaxLength(bits) - 1 {
      PowerMonotone(7 * i + 7, bits);
    } else if buf[i] < (if bits == 32 then 0x10 else 2) {
      TopDigit(Sum(buf[..i]), buf[i], Pow2(7 * i), if bits == 32 then 0x10 else 2);
    }
  }

  lemma TopDigit(low: nat, d: nat, p: nat, limit: nat)
    requires low < p && d < limit
    ensures low + d * p < limit * p
  {
    var more := limit - d - 1;
    assert limit * p == d * p + p + more * p;
  }

  /** No encoding ends where all bytes go on, and none is longer than the maximum. */
  lemma NoEncoding(bits: nat, buf: seq<byte>, i: nat)
    requires (bits == 32 || bits == 64) && i <= |buf| && (i == |buf| || i >= MaxLength(bits))
    requires forall j :: 0 <= j < i ==> buf[j] >= 0x80
    ensures forall n :: 0 <= n <= |buf| ==> Unsigned(bits, buf[..n]).None? && Signed(bits, buf[..n]).None?
  {
    forall n | 0 <= n <= |buf| ensures Unsigned(bits, buf[..n]).None? && Signed(bits, buf[..n]).None? {
      UnsignedIsSum(bits, buf[..n]);
      SignedIsSum(bits, buf[..n]);
      if n > 0 { assert buf[..n][n - 1] == buf[n - 1]; }
    }
  }

  /** Where the buffer's only terminated prefix is no encoding, there is none. */
  lemma NotThisLong(bits: nat, buf: seq<byte>, i: nat)
    requires (bits == 32 || bits == 64) && i < |buf| && buf[i] < 0x80 && forall j :: 0 <= j < i ==> buf[j] >= 0x80
    ensures Unsigned(bits, buf[..i + 1]).None? ==> forall n :: 0 <= n <= |buf| ==> Unsigned(bits, buf[..n]).None?
    ensures Signed(bits, buf[..i + 1]).None? ==> forall n :: 0 <= n <= |buf| ==> Signed(bits, buf[..n]).None?
    ensures i == MaxLength(bits) - 1 && buf[i] >= (if bits == 32 then 0x10 else 2) ==> Unsigned(bits, buf[..i + 1]).None?
  {
    assert Terminated(buf[..i + 1]);
    forall n | 0 <= n <= |buf| && n != i + 1 ensures Unsigned(bits, buf[..n]).None? && Signed(bits, buf[..n]).None? {
      EncodingsTerminate(bits, buf[..n]);
      if Terminated(buf[..n]) { PrefixUnique(buf, n, i + 1); }
    }
    UnsignedIsSum(bits, buf[..i + 1]);
    Powers();
  }

  ghost predicate ReadsSigned(bits: nat, buf: seq<byte>, r: Option<(int, nat)>)
    requires bits > 0
  {
    match r
    case Some((x, n)) => n <= |buf| && Signed(bits, buf[..n]) == Some(x)
    case None => forall n :: 0 <= n <= |buf| ==> Signed(bits, buf[..n]).None?
  }

  /** Whether the bits of a longest encoding's last byte above the sign bit repeat it. */
  predicate UpperBitsAgree(bits: nat, b: byte) {
    if bits == 32 then
      var signBit := (b / 8) % 2;
      (b / 0x10) % 8 == (if signBit == 1 then 7 else 0)
    else
      var signBit := b % 2;
      b / 2 == (if signBit == 1 then 0x7F / 2 else 0)
  }

  /** An integer of `bits` bits read as two's complement. */
  function AsSigned(bits: nat, x: nat): int
    requires bits > 0
  {
    if x < Pow2(bits - 1) then x else x - Pow2(bits)
  }

  /** Sets all bits from bit `s` up, which `x` leaves clear. */
  function SignExtended(bits: nat, x: nat, s: nat): nat {
    PositivePower(bits);
    (x + Pow2(bits) - Pow2(s)) % Pow2(bits)
  }

  /** Reads a signed integer of 32 or 64 bits. */
  method ReadSigned(bits: nat, buf: seq<byte>) returns (r: Option<(int, nat)>)
    requires bits == 32 || bits == 64
    ensures ReadsSigned(bits, buf, r)
  {
    hide Pow2, Sum, Unsigned, Signed, AsSigned, UpperBitsAgree, SignExtended, Shifted;
    var x, s := 0, 0;
    NoDigits(buf);
    for i := 0 to |buf|
      invariant s == 7 * i && i <= MaxLength(bits)
      invariant forall j :: 0 <= j < i ==> buf[j] >= 0x80
      invariant i < MaxLength(bits) ==> x == Sum(buf[..i])
    {
      if i >= MaxLength(bits) {
        NoEncoding(bits, buf, i);
        return None;
      }
      var b := buf[i];
      x := Shifted(bits, x, b % 0x80, s);
      s := s + 7;
      if b < 0x80 {
        if i == MaxLength(bits) - 1 && !UpperBitsAgree(bits, b) {
          NotThisLong(bits, buf, i);
          DisagreeingBits(bits, buf, i);
          return None;
        }
        LastSignedDigit(bits, buf, i);
        if s < bits && b >= 0x40 {
          x := SignExtended(bits, x, s);
        }
        return Some((AsSigned(bits, x), i + 1));
      }
      if i < MaxLength(bits) - 1 { WholeSum(bits, buf, i); }
    }
    NoEncoding(bits, buf, |buf|);
    r := None;
  }

  lemma DisagreeingBits(bits: nat, buf: seq<byte>, i: nat)
    requires (bits == 32 || bits == 64) && i < |buf| && i == MaxLength(bits) - 1 && buf[i] < 0x80
    requires !UpperBitsAgree(bits, buf[i])
    ensures Signed(bits, buf[..i + 1]).None?
  {
    hide Pow2, Signed, Sum;
    Powers();
    SignedIsSum(bits, buf[..i + 1]);
  }

  lemma LastSignedDigit(bits: nat, buf: seq<byte>, i: nat)
    requires (bits == 32 || bits == 64) && i < |buf| && i < MaxLength(bits) && buf[i] < 0x80
    requires i == MaxLength(bits) - 1 ==> UpperBitsAgree(bits, buf[i])
    requires forall j :: 0 <= j < i ==> buf[j] >= 0x80
    ensures var (b, s) := (buf[i], 7 * i + 7);
            var x := Shifted(bits, Sum(buf[..i]), b % 0x80, 7 * i);
            Signed(bits, buf[..i + 1]) == Some(AsSigned(bits, if s < bits && b >= 0x40 then SignExtended(bits, x, s) else x))
  {
    hide Pow2, Sum, Signed, AsSigned, UpperBitsAgree, SignExtended, Shifted;
    var (b, bs) := (buf[i], buf[..i + 1]);
    assert Terminated(bs) && bs[|bs| - 1] == b && |bs| == i + 1;
    SignedIsSum(bits, bs);
    StepSum(bits, buf, i);
    if i < MaxLength(bits) - 1 {
      LargePower(bits, i);
      WholeSum(bits, buf, i);
      SignedDigitFits(bits, i, b);
      ShortSigned(bits, i, Sum(buf[..i]), b);
    } else {
      LongSigned(bits, Sum(buf[..i]), b);
    }
  }

  lemma SignedDigitFits(bits: nat, i: nat, b: byte)
    requires (bits == 32 || bits == 64) && i < MaxLength(bits) - 1 && b < 0x80
    ensures 7 * i < bits && FitsSigned(b, bits - 7 * i)
  {
    LargePower(bits, i);
    Pow2Seven(bits - 7 * i - 7);
    PositivePower(bits - 7 * i - 7);
    assert Pow2(bits - 7 * i) == 2 * Pow2(bits - 7 * i - 1);
  }

  /** Sign extension of a number that ends before the integer's last bits. */
  lemma ShortSigned(bits: nat, i: nat, t: nat, b: byte)
    requires (bits == 32 || bits == 64) && i < MaxLength(bits) - 1 && b < 0x80 && t < Pow2(7 * i)
    ensures var (x, s) := (t + b * Pow2(7 * i), 7 * i + 7);
            && s < bits
            && AsSigned(bits, if b >= 0x40 then SignExtended(bits, x, s) else x) == if b >= 0x40 then x - Pow2(s) else x
  {
    hide SignExtended, AsSigned, Pow2;
    var s := 7 * i + 7;
    var x := t + b * Pow2(7 * i);
    Pow2Seven(7 * i);
    PowerMonotone(s, bits - 1);
    Double(bits - 1);
    ShortBounds(t, b, Pow2(7 * i), x);
    if b < 0x40 {
      SignOf(bits, x);
    } else {
      Extends(bits, x, s);
      SignOf(bits, x + Pow2(bits) - Pow2(s));
    }
  }

  lemma ShortBounds(t: nat, b: byte, p: nat, x: nat)
    requires t < p && b < 0x80 && x == t + b * p
    ensures if b < 0x40 then x < 0x40 * p else 0x40 * p <= x < 0x80 * p
  {
    if b < 0x40 {
      TimesLe(b, 0x3F, p);
    } else {
      TimesLe(0x40, b, p);
      TimesLe(b, 0x7F, p);
    }
  }

  lemma SignOf(bits: nat, x: nat)
    requires bits > 0
    ensures AsSigned(bits, x) == if x < Pow2(bits - 1) then x else x - Pow2(bits)
  {
  }

  lemma Extends(bits: nat, x: nat, s: nat)
    requires x < Pow2(s) <= Pow2(bits)
    ensures SignExtended(bits, x, s) == x + Pow2(bits) - Pow2(s)
  {
    SmallMod(x + Pow2(bits) - Pow2(s), Pow2(bits));
  }

  lemma TimesLe(a: nat, b: nat, p: nat)
    requires a <= b
    ensures a * p <= b * p
  {
  }

  lemma {:induction false} PowerMonotone(m: nat, n: nat)
    requires m <= n
    ensures Pow2(m) <= Pow2(n)
  {
    if m < n { PowerMonotone(m, n - 1); }
  }

  /** The last byte of a longest encoding: the bits that fall out repeat the sign. */
  lemma LongSigned(bits: nat, t: nat, b: byte)
    requires (bits == 32 || bits == 64) && b < 0x80 && UpperBitsAgree(bits, b)
    requires var i := MaxLength(bits) - 1; t < Pow2(7 * i)
    ensures var i := MaxLength(bits) - 1;
            && 7 * i < bits < 7 * i + 7 && FitsSigned(b, bits - 7 * i)
            && AsSigned(bits, Shifted(bits, t, b % 0x80, 7 * i)) == if b >= 0x40 then t + b * Pow2(7 * i) - Pow2(7 * i + 7) else t + b * Pow2(7 * i)
  {
    Powers();
    hide Pow2;
    if bits == 32 {
      LongSigned32(t, b);
    } else {
      LongSigned64(t, b);
    }
  }

  lemma LongSigned32(t: nat, b: byte)
    requires b < 0x80 && UpperBitsAgree(32, b) && t < 0x1000_0000
    ensures b < 8 || b >= 0x78
    ensures (t + b * 0x1000_0000) % 0x1_0000_0000 == if b < 8 then t + b * 0x1000_0000 else t + (b - 0x70) * 0x1000_0000
  {
  }

  lemma LongSigned64(t: nat, b: byte)
    requires b < 0x80 && UpperBitsAgree(64, b) && t < 0x8000_0000_0000_0000
    ensures b == 0 || b == 0x7F
    ensures (t + b * 0x8000_0000_0000_0000) % 0x1_0000_0000_0000_0000 == if b == 0 then t else t + 0x8000_0000_0000_0000
  {
  }

  // ----- writers -----

  function EncodedUnsigned(x: nat): seq<byte> {
    if x < 0x80 then [x] else [x % 0x80 + 0x80] + EncodedUnsigned(x / 0x80)
  }

  function EncodedSigned(x: int): seq<byte>
    decreases if x < 0 then -x else x
  {
    var (b, rest) := (x % 0x80, x / 0x80);
    if (rest == 0 && b < 0x40) || (rest == -1 && b >= 0x40) then [b] else [b + 0x80] + EncodedSigned(rest)
  }

  lemma NarrowPowers(n: nat)
    ensures (n <= 7 ==> Pow2(n) <= 0x80) && (n <= 6 ==> Pow2(n) <= 0x40)
  {
    assert Pow2(7) == 0x80 && Pow2(6) == 0x40;
    if n <= 6 { PowerMonotone(n, 6); }
  }

  /** What the unsigned writer emits is an encoding of its argument. */
  lemma {:induction false} UnsignedRoundTrip(n: nat, x: nat)
    requires n > 0 && x < Pow2(n)
    ensures Unsigned(n, EncodedUnsigned(x)) == Some(x)
    decreases x
  {
    if x >= 0x80 {
      NarrowPowers(n);
      assert n > 7;
      Pow2Seven(n - 7);
      UnsignedRoundTrip(n - 7, x / 0x80);
      assert EncodedUnsigned(x)[1..] == EncodedUnsigned(x / 0x80);
    }
  }

  /** What the signed writer emits is an encoding of its argument. */
  lemma {:induction false} SignedRoundTrip(n: nat, x: int)
    requires n > 0 && -(Pow2(n - 1) as int) <= x < Pow2(n - 1)
    ensures Signed(n, EncodedSigned(x)) == Some(x)
    decreases if x < 0 then -x else x
  {
    var (b, rest) := (x % 0x80, x / 0x80);
    if (rest == 0 && b < 0x40) || (rest == -1 && b >= 0x40) {
    } else {
      NarrowPowers(n - 1);
      assert n > 7;
      Pow2Seven(n - 8);
      SignedRoundTrip(n - 7, rest);
      assert EncodedSigned(x)[1..] == EncodedSigned(rest);
    }
  }

  // ----- encoded sizes -----

  function Ilog2(x: nat): nat
    requires x > 0
  {
    if x == 1 then 0 else 1 + Ilog2(x / 2)
  }

  /** The encoded size in closed form, from the number of significant bits. */
  function SizeU32(x: nat): nat {
    var bits := Ilog2(if x < 1 then 1 else x) + 1;
    (9 * bits + 64) / 64
  }

  lemma {:induction false} Ilog2Bounds(x: nat)
    requires x > 0
    ensures Pow2(Ilog2(x)) <= x < Pow2(Ilog2(x) + 1)
  {
    if x > 1 { Ilog2Bounds(x / 2); }
  }

  lemma Ilog2Between(x: nat, lo: nat, hi: nat)
    requires 0 < x && Pow2(lo) <= x < Pow2(hi)
    ensures lo <= Ilog2(x) < hi
  {
    Ilog2Bounds(x);
    if Ilog2(x) < lo { PowerMonotone(Ilog2(x) + 1, lo); }
    if Ilog2(x) >= hi { PowerMonotone(hi, Ilog2(x)); }
  }

  /** The closed form is the number of bytes that the encoding has. */
  lemma SizeExact(x: nat)
    requires x < TWO_TO_32
    ensures SizeU32(x) == |EncodedUnsigned(x)| <= MaxLength(32)
  {
    hide Pow2, Ilog2, EncodedUnsigned;
    Powers();
    if x < 0x80 {
      OneByte(x);
    } else if x < 0x4000 {
      Ilog2Between(x, 7, 14);
      LongerBy(x, 1);
    } else if x < 0x20_0000 {
      Ilog2Between(x, 14, 21);
      LongerBy(x, 2);
    } else if x < 0x1000_0000 {
      Ilog2Between(x, 21, 28);
      LongerBy(x, 3);
    } else {
      Ilog2Between(x, 28, 32);
      LongerBy(x, 4);
    }
  }

  lemma OneByte(x: nat)
    requires x < 0x80
    ensures SizeU32(x) == 1 == |EncodedUnsigned(x)|
  {
    Powers();
    if x > 0 { Ilog2Between(x, 0, 7); }
  }

  lemma {:induction false} LongerBy(x: nat, k: nat)
    requires Pow2(7 * k) <= x < Pow2(7 * k + 7)
    ensures |EncodedUnsigned(x)| == k + 1
  {
    if k == 0 {
      assert Pow2(7) == 0x80;
    } else {
      Pow2Seven(7 * k - 7);
      Pow2Seven(7 * k);
      PositivePower(7 * k - 7);
      LongerBy(x / 0x80, k - 1);
    }
  }

  /** A 32-bit integer never needs more than five bytes. */
  lemma {:induction false} SignedLength(x: int, k: nat)
    requires -(Pow2(7 * k + 6) as int) <= x < Pow2(7 * k + 6)
    ensures |EncodedSigned(x)| <= k + 1
    decreases k
  {
    if k == 0 {
      assert Pow2(6) == 0x40;
    } else {
      Pow2Seven(7 * k - 1);
      SignedLength(x / 0x80, k - 1);
    }
  }

  lemma ShortEnough(x: int)
    requires -0x8000_0000 <= x < 0x8000_0000
    ensures |EncodedSigned(x)| <= MaxLength(32)
  {
    Powers();
    assert Pow2(34) == 4 * Pow2(32);
    SignedLength(x, 4);
  }

  lemma SignedDigit(x: int)
    ensures var (b, rest) := (x % 0x80, x / 0x80);
            var done := (rest == 0 && b < 0x40) || (rest == -1 && b >= 0x40);
            EncodedSigned(x) == if done then [b] else [b + 0x80] + EncodedSigned(rest)
  {
  }

  // ----- writing to a buffer -----

  /** Writes `value` to the buffer; None, without writing, when it does not fit. */
  method WriteU32(buf: array<byte>, value: nat) returns (n: Option<nat>)
    requires value < TWO_TO_32
    modifies buf
    ensures n.Some? <==> |EncodedUnsigned(value)| <= buf.Length
    ensures n.Some? ==> n.value == |EncodedUnsigned(value)| && buf[..n.value] == EncodedUnsigned(value)
    ensures forall j :: (if n.Some? then n.value else 0) <= j < buf.Length ==> buf[j] == old(buf[j])
  {
    SizeExact(value);
    if SizeU32(value) > buf.Length {
      return None;
    }
    var x, i := value, 0;
    while true
      invariant 0 <= i < |EncodedUnsigned(value)| && buf[..i] + EncodedUnsigned(x) == EncodedUnsigned(value)
      invariant forall j :: i <= j < buf.Length ==> buf[j] == old(buf[j])
      decreases |EncodedUnsigned(value)| - i
    {
      ghost var (before, encoded) := (buf[..i], EncodedUnsigned(x));
      assert |before + encoded| == |EncodedUnsigned(value)|;
      var b := x % 0x80;
      x := x / 0x80;
      buf[i] := if x != 0 then b + 0x80 else b;
      assert buf[..i + 1] == before + [buf[i]];
      Emitted(before, encoded, buf[i], if x == 0 then [] else EncodedUnsigned(x));
      if x == 0 { return Some(i + 1); }
      i := i + 1;
    }
  }

  /** One byte of what is left goes to the end of what is written. */
  lemma Emitted(before: seq<byte>, encoded: seq<byte>, b: byte, more: seq<byte>)
    requires encoded == [b] + more
    ensures before + encoded == before + [b] + more && |before| < |before + encoded|
    ensures more == [] ==> before + encoded == before + [b]
  {
  }

  /** Writes `value` to the buffer byte by byte; None when the buffer ends before
      the encoding does. */
  method WriteI32(buf: array<byte>, value: int) returns (n: Option<nat>)
    requires -0x8000_0000 <= value < 0x8000_0000
    modifies buf
    ensures n.Some? <==> |EncodedSigned(value)| <= buf.Length
    ensures n.Some? ==> n.value == |EncodedSigned(value)| && buf[..n.value] == EncodedSigned(value)
    ensures forall j :: |EncodedSigned(value)| <= j < buf.Length ==> buf[j] == old(buf[j])
  {
    ShortEnough(value);
    hide EncodedSigned;
    var x, i := value, 0;
    while true
      invariant 0 <= i < |EncodedSigned(value)| && i <= buf.Length && buf[..i] + EncodedSigned(x) == EncodedSigned(value)
      invariant forall j :: i <= j < buf.Length ==> buf[j] == old(buf[j])
      decreases |EncodedSigned(value)| - i
    {
      if i >= buf.Length || i >= MaxLength(32) {
        return None;
      }
      ghost var (before, encoded) := (buf[..i], EncodedSigned(x));
      assert |before + encoded| == |EncodedSigned(value)|;
      SignedDigit(x);
      var b := x % 0x80;
      x := x / 0x80;
      var done := (x == 0 && b < 0x40) || (x == -1 && b >= 0x40);
      buf[i] := if done then b else b + 0x80;
      assert buf[..i + 1] == before + [buf[i]];
      Emitted(before, encoded, buf[i], if done then [] else EncodedSigned(x));
      if done { return Some(i + 1); }
      i := i + 1;
    }
  }

  // ----- reading what was written -----

  /** An encoding, followed by anything, reads as its value. */
  lemma ReadBack(bits: nat, buf: seq<byte>, bs: seq<byte>, r: Option<(nat, nat)>)
    requires bits == 32 || bits == 64
    requires Unsigned(bits, bs).Some? && bs <= buf && ReadsUnsigned(bits, buf, r)
    ensures r == Some((Unsigned(bits, bs).value, |bs|))
  {
    assert buf[..|bs|] == bs;
    EncodingsTerminate(bits, bs);
    if r.Some? {
      EncodingsTerminate(bits, buf[..r.value.1]);
      PrefixUnique(buf, |bs|, r.value.1);
    }
  }

  lemma ReadBackSigned(bits: nat, buf: seq<byte>, bs: seq<byte>, r: Option<(int, nat)>)
    requires bits == 32 || bits == 64
    requires Signed(bits, bs).Some? && bs <= buf && ReadsSigned(bits, buf, r)
    ensures r == Some((Signed(bits, bs).value, |bs|))
  {
    assert buf[..|bs|] == bs;
    EncodingsTerminate(bits, bs);
    if r.Some? {
      EncodingsTerminate(bits, buf[..r.value.1]);
      PrefixUnique(buf, |bs|, r.value.1);
    }
  }

  /** Writing an unsigned integer and reading it gives it back, with the number of
      bytes that were written. */
  method WriteThenRead(value: nat, rest: seq<byte>) returns (r: Option<(nat, nat)>)
    requires value < TWO_TO_32
    ensures r == Some((value, SizeU32(value)))
  {
    var buf := new byte[5](_ => 0);
    SizeExact(value);
    var n := WriteU32(buf, value);
    var bytes := buf[..n.value] + rest;
    r := ReadUnsigned(32, bytes);
    Powers();
    UnsignedRoundTrip(32, value);
    ReadBack(32, bytes, EncodedUnsigned(value), r);
  }

  method WriteThenReadSigned(value: int, rest: seq<byte>) returns (r: Option<(int, nat)>)
    requires -0x8000_0000 <= value < 0x8000_0000
    ensures r == Some((value, |EncodedSigned(value)|))
  {
    var buf := new byte[5](_ => 0);
    ShortEnough(value);
    Powers();
    var n := WriteI32(buf, value);
    var bytes := buf[..n.value] + rest;
    r := ReadSigned(32, bytes);
    SignedRoundTrip(32, value);
    ReadBackSigned(32, bytes, EncodedSigned(value), r);
  }
}
