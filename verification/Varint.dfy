/** LEB128 and zigzag integers of 32 and 64 bits (section 7.6 of DWARF 5). */
module Varint {
  import opened ByteKeys
  import opened Datastream

  /** The bits of the type. */
  type Bits = b: nat | b == 32 || b == 64 witness 32

  function MaxLen(bits: Bits): nat {
    (bits + 6) / 7
  }

  /** The number of values of the type. */
  function Range(bits: Bits): nat {
    if bits == 32 then 0x1_0000_0000 else 0x1_0000_0000_0000_0000
  }

  /** The number of values that the bits left for the last byte can take. */
  function LastRange(bits: Bits): nat {
    if bits == 32 then 16 else 2
  }

  datatype Outcome = Read(value: nat, rest: Bytes) | OutOfRange | NotMinimal

  /** Seven bits a byte, least significant first, a high bit on all bytes but the last. */
  function Leb(v: nat): (r: Bytes)
    ensures |r| > 0
  {
    if v < 128 then [v] else [v % 128 + 128] + Leb(v / 128)
  }

  /** Reading from byte `i` on; a leading zero byte is refused, except that the last possible byte is not looked at. */
  function ReadFrom(bits: Bits, i: nat, b: Bytes): Outcome
    requires i < MaxLen(bits)
    decreases MaxLen(bits) - i
  {
    if b == [] then OutOfRange
    else if i == MaxLen(bits) - 1 then Read(b[0] % LastRange(bits), b[1..])
    else if b[0] < 128 then (if b[0] == 0 && i > 0 then NotMinimal else Read(b[0], b[1..]))
    else
      match ReadFrom(bits, i + 1, b[1..])
      case Read(v, rest) => Read((b[0] - 128) + 128 * v, rest)
      case e => e
  }

  /** The number of values that the bits from byte `i` on can take. */
  function Room(bits: Bits, i: nat): nat
    requires i < MaxLen(bits)
    decreases MaxLen(bits) - i
  {
    if i == MaxLen(bits) - 1 then LastRange(bits) else 128 * Room(bits, i + 1)
  }

  lemma RoomAll(bits: Bits)
    ensures Room(bits, 0) == Range(bits)
  {
    if bits == 32 {
      assert Room(32, 3) == 0x800;
      assert Room(32, 1) == 0x200_0000;
    } else {
      assert Room(64, 8) == 0x100;
      assert Room(64, 6) == 0x40_0000;
      assert Room(64, 4) == 0x10_0000_0000;
      assert Room(64, 2) == 0x4_0000_0000_0000;
    }
  }

  /** The number whose groups of seven bits are the low bits of the bytes, least significant first. */
  function Groups(b: Bytes): nat {
    if b == [] then 0 else b[0] as int % 128 + 128 * Groups(b[1..])
  }

  /** The bytes written: groups of seven bits, a high bit on all but the last, and no last group of zeros except for zero. */
  lemma {:induction false} LebBytes(v: nat)
    ensures var b := Leb(v);
            && Groups(b) == v && (forall i :: 0 <= i < |b| - 1 ==> b[i] >= 128)
            && b[|b| - 1] < 128 && (|b| > 1 ==> b[|b| - 1] > 0)
    decreases v
  {
    if v < 128 {
      assert Groups([v][1..]) == 0;
    } else {
      LebBytes(v / 128);
      var b := Leb(v);
      assert b[1..] == Leb(v / 128);
    }
  }

  lemma {:induction false} LebRoundTrip(bits: Bits, i: nat, v: nat, rest: Bytes)
    requires i < MaxLen(bits) && v < Room(bits, i) && (i > 0 ==> v > 0)
    ensures ReadFrom(bits, i, Leb(v) + rest) == Read(v, rest)
    decreases MaxLen(bits) - i
  {
    var b := Leb(v) + rest;
    if v < 128 {
      assert b[1..] == rest;
    } else {
      assert b[1..] == Leb(v / 128) + rest;
      LebRoundTrip(bits, i + 1, v / 128, rest);
    }
  }

  /** Every value of the type comes back, with what follows it. */
  lemma RoundTrip(bits: Bits, v: nat, rest: Bytes)
    requires v < Range(bits)
    ensures ReadFrom(bits, 0, Leb(v) + rest) == Read(v, rest)
  {
    RoomAll(bits);
    LebRoundTrip(bits, 0, v, rest);
  }

  /** `b` is what the writer emits for `v`, then `rest`. */
  ghost predicate Canonical(b: Bytes, v: nat, rest: Bytes) {
    b == Leb(v) + rest
  }

  lemma CanonicalStep(b: Bytes, v: nat, rest: Bytes)
    requires b != [] && b[0] >= 128
    ensures Canonical(b, (b[0] - 128) + 128 * v, rest) <==> v > 0 && Canonical(b[1..], v, rest)
  {
    var low, w := b[0] as int - 128, (b[0] - 128) + 128 * v;
    assert w % 128 == low && w / 128 == v;
    var x := Leb(w) + rest;
    if v > 0 {
      assert x[1..] == Leb(v) + rest;
      assert b == [b[0]] + b[1..] && x == [b[0]] + x[1..];
    } else {
      assert x[0] as int == low;
    }
  }

  lemma CanonicalShort(b: Bytes, v: nat)
    requires b != [] && v < 128
    ensures Canonical(b, v, b[1..]) <==> b[0] as int == v
  {
    assert b == [b[0]] + b[1..];
    assert (Leb(v) + b[1..])[0] as int == v;
  }

  lemma ReadStep(bits: Bits, i: nat, b: Bytes)
    requires i < MaxLen(bits) - 1 && ReadFrom(bits, i, b).Read? && b[0] >= 128
    ensures var r, sub := ReadFrom(bits, i, b), ReadFrom(bits, i + 1, b[1..]);
            sub.Read? && r.rest == sub.rest && r.value == (b[0] - 128) + 128 * sub.value
  {
  }

  lemma ReadEnd(bits: Bits, i: nat, b: Bytes)
    requires i < MaxLen(bits) && ReadFrom(bits, i, b).Read? && (i == MaxLen(bits) - 1 || b[0] < 128)
    ensures var r := ReadFrom(bits, i, b);
            && b != [] && r.rest == b[1..]
            && (if i == MaxLen(bits) - 1 then r.value == b[0] as int % LastRange(bits)
                else r.value == b[0] as int && (i > 0 ==> r.value > 0))
  {
  }

  /** What is accepted before the last possible byte is what the writer emits. */
  lemma {:induction false} ReadCanonical(bits: Bits, i: nat, b: Bytes)
    requires i < MaxLen(bits) && ReadFrom(bits, i, b).Read?
    ensures var r := ReadFrom(bits, i, b);
            var used := |b| - |r.rest|;
            && 0 < used <= MaxLen(bits) - i
            && (used < MaxLen(bits) - i ==> Canonical(b, r.value, r.rest) && (i > 0 ==> r.value > 0))
    decreases MaxLen(bits) - i
  {
    hide Leb, ReadFrom, Canonical;
    ReadSome(bits, i, b);
    if i == MaxLen(bits) - 1 || b[0] < 128 {
      ReadEnd(bits, i, b);
      if i < MaxLen(bits) - 1 {
        CanonicalShort(b, ReadFrom(bits, i, b).value);
      }
    } else {
      ReadStep(bits, i, b);
      ReadCanonical(bits, i + 1, b[1..]);
      CanonicalStep(b, ReadFrom(bits, i + 1, b[1..]).value, ReadFrom(bits, i, b).rest);
    }
  }

  lemma ReadSome(bits: Bits, i: nat, b: Bytes)
    requires i < MaxLen(bits) && ReadFrom(bits, i, b).Read?
    ensures b != []
  {
  }

  /** A reading of full length is what the writer emits exactly when its last byte is not zero and loses no bits. */
  lemma {:induction false} FullLengthCanonical(bits: Bits, i: nat, b: Bytes)
    requires i < MaxLen(bits) && ReadFrom(bits, i, b).Read?
    requires |b| - |ReadFrom(bits, i, b).rest| == MaxLen(bits) - i
    ensures var r := ReadFrom(bits, i, b);
            Canonical(b, r.value, r.rest) && (i > 0 ==> r.value > 0) <==> 0 < b[MaxLen(bits) - 1 - i] as int < LastRange(bits)
    decreases MaxLen(bits) - i
  {
    hide Leb, ReadFrom, Canonical;
    ReadSome(bits, i, b);
    if i == MaxLen(bits) - 1 || b[0] < 128 {
      ReadEnd(bits, i, b);
      CanonicalShort(b, ReadFrom(bits, i, b).value);
    } else {
      ReadStep(bits, i, b);
      FullLengthCanonical(bits, i + 1, b[1..]);
      CanonicalStep(b, ReadFrom(bits, i + 1, b[1..]).value, ReadFrom(bits, i, b).rest);
    }
  }

  /** An input of full length that is accepted although the writer emits something else for the value. */
  lemma PaddedZeroAccepted()
    ensures var b: Bytes := [0x80, 0x80, 0x80, 0x80, 0x00];
            ReadFrom(32, 0, b) == Read(0, []) && Leb(0) != b
  {
    var b: Bytes := [0x80, 0x80, 0x80, 0x80, 0x00];
    assert b[1..] == [0x80, 0x80, 0x80, 0x00] && b[1..][1..] == [0x80, 0x80, 0x00];
    assert ReadFrom(32, 4, [0x00]) == Read(0, []);
    assert [0x80, 0x00][1..] == [0x00];
    assert ReadFrom(32, 3, [0x80, 0x00]) == Read(0, []);
    assert [0x80, 0x80, 0x00][1..] == [0x80, 0x00];
    assert ReadFrom(32, 2, [0x80, 0x80, 0x00]) == Read(0, []);
    assert ReadFrom(32, 1, [0x80, 0x80, 0x80, 0x00]) == Read(0, []);
  }

  lemma ReadMore(bits: Bits, i: nat, b: Bytes)
    requires i < MaxLen(bits) - 1 && b != [] && b[0] >= 128
    ensures ReadFrom(bits, i, b) ==
            match ReadFrom(bits, i + 1, b[1..])
            case Read(v, rest) => Read(b[0] as int % 128 + 128 * v, rest)
            case e => e
  {
    assert b[0] as int % 128 == b[0] as int - 128;
  }

  predicate HighBits(b: Bytes, j: nat) {
    j <= |b| && forall k :: 0 <= k < j ==> b[k] >= 128
  }

  lemma HighBitsStep(b: Bytes, j: nat)
    requires HighBits(b, j) && j > 0
    ensures b != [] && b[0] >= 128 && HighBits(b[1..], j - 1) && Groups(b[..j]) == b[0] as int % 128 + 128 * Groups(b[1..][..j - 1])
  {
    assert b[..j][1..] == b[1..][..j - 1];
  }

  /** An input that ends too early. */
  lemma {:induction false} ReadNothing(bits: Bits, i: nat, b: Bytes)
    requires i + |b| < MaxLen(bits) && HighBits(b, |b|)
    ensures ReadFrom(bits, i, b) == OutOfRange
    decreases |b|
  {
    if b != [] {
      ReadMore(bits, i, b);
      ReadNothing(bits, i + 1, b[1..]);
    }
  }

  /** One whose byte `j` is the first without the high bit, before the last that may be read. */
  lemma {:induction false} ReadShort(bits: Bits, i: nat, b: Bytes, j: nat)
    requires i + j < MaxLen(bits) - 1 && HighBits(b, j) && j < |b| && b[j] < 128
    ensures ReadFrom(bits, i, b) == if b[j] == 0 && i + j > 0 then NotMinimal else Read(Groups(b[..j + 1]), b[j + 1..])
    decreases j
  {
    if j == 0 {
      assert b[..1] == [b[0]] && [b[0]][1..] == [];
      assert Groups([b[0]]) == b[0] as int;
    } else {
      hide ReadFrom, HighBits;
      var t := b[1..];
      HighBitsStep(b, j);
      ReadMore(bits, i, b);
      ReadShort(bits, i + 1, t, j - 1);
      assert t[j..] == b[j + 1..] && b[..j + 1][1..] == t[..j];
    }
  }

  lemma NextPlace(low: nat, g: nat, j: nat, last: nat)
    requires j > 0
    ensures low + 128 * (g + Pow128(j - 1) * last) == low + 128 * g + Pow128(j) * last
  {
    assert Pow128(j) * last == 128 * (Pow128(j - 1) * last);
  }

  /** One that goes on to the last byte, of which only the bits that fit count. */
  lemma {:induction false} ReadLast(bits: Bits, i: nat, b: Bytes, j: nat)
    requires i + j == MaxLen(bits) - 1 && HighBits(b, j) && j < |b|
    ensures ReadFrom(bits, i, b) == Read(Groups(b[..j]) + Pow128(j) * (b[j] as int % LastRange(bits)), b[j + 1..])
    decreases j
  {
    if j == 0 {
      assert b[..0] == [];
    } else {
      hide ReadFrom, HighBits, LastRange, Pow128, Groups;
      var t := b[1..];
      HighBitsStep(b, j);
      ReadMore(bits, i, b);
      ReadLast(bits, i + 1, t, j - 1);
      assert t[j..] == b[j + 1..] && t[j - 1] == b[j];
      NextPlace(b[0] as int % 128, Groups(t[..j - 1]), j, b[j] as int % LastRange(bits));
    }
  }

  /**
   What every input gives. After `j` bytes with the high bit there is nothing, a byte without it, or the last byte that
   may be read.
   */
  lemma ReadExactly(bits: Bits, b: Bytes, j: nat)
    requires j < MaxLen(bits) && HighBits(b, j)
    ensures j == |b| ==> ReadFrom(bits, 0, b) == OutOfRange
    ensures j < |b| && j < MaxLen(bits) - 1 && b[j] < 128 ==>
              ReadFrom(bits, 0, b) == if b[j] == 0 && j > 0 then NotMinimal else Read(Groups(b[..j + 1]), b[j + 1..])
    ensures j < |b| && j == MaxLen(bits) - 1 ==>
              ReadFrom(bits, 0, b) == Read(Groups(b[..j]) + Pow128(j) * (b[j] as int % LastRange(bits)), b[j + 1..])
  {
    hide ReadFrom, Groups, LastRange, Pow128;
    if j == |b| {
      ReadNothing(bits, 0, b);
    } else if j == MaxLen(bits) - 1 {
      ReadLast(bits, 0, b, j);
    } else if b[j] < 128 {
      ReadShort(bits, 0, b, j);
    }
  }

  // ---- Streams ----

  method WriteUleb128(ds: OutStream, v: nat, bits: Bits) returns (n: nat)
    requires v < Range(bits) && |ds.out| + |Leb(v)| <= ds.capacity
    modifies ds
    ensures ds.out == old(ds.out) + Leb(v) && n == |Leb(v)|
  {
    RoomAll(bits);
    var val: nat := v;
    var i := 0;
    while i < MaxLen(bits)
      invariant i < MaxLen(bits) && val < Room(bits, i)
      invariant ds.out + Leb(val) == old(ds.out) + Leb(v) && |ds.out| == |old(ds.out)| + i
      decreases MaxLen(bits) - i
    {
      var lowBits := val % 128;
      ghost var before: nat := val;
      val := val / 128;
      var more := if val != 0 then 128 else 0;
      ds.Put(lowBits + more);
      if more == 0 {
        break;
      }
      assert Leb(before) == [lowBits + more] + Leb(val);
      i := i + 1;
    }
    n := i + 1;
  }

  /** The bytes before make `val`, and those to come count `p` times. */
  ghost function Plus(val: nat, p: nat, o: Outcome): Outcome {
    match o
    case Read(v, rest) => Read(val + p * v, rest)
    case e => e
  }

  function Pow128(i: nat): (r: nat)
    ensures r > 0
  {
    if i == 0 then 1 else 128 * Pow128(i - 1)
  }

  /** x << (7 * i) */
  function Shifted(x: nat, i: nat): nat {
    x * Pow128(i)
  }

  /** Shifted to its place, the last byte keeps the bits that fit. */
  lemma ShiftedByte(bits: Bits, c: Byte)
    ensures var i := MaxLen(bits) - 1;
            Shifted(c as int, i) % Range(bits) == Pow128(i) * (c as int % LastRange(bits))
  {
    assert Pow128(2) == 0x4000;
    assert Pow128(4) == 0x1000_0000;
    if bits == 32 {
      assert c as int == 16 * (c as int / 16) + c as int % 16;
    } else {
      assert Pow128(6) == 0x400_0000_0000;
      assert Pow128(8) == 0x100_0000_0000_0000;
      assert Pow128(9) == 0x8000_0000_0000_0000;
      assert c as int == 2 * (c as int / 2) + c as int % 2;
    }
  }

  lemma PlusStep(val: nat, i: nat, low: nat, v: nat)
    ensures val + Pow128(i) * (low + 128 * v) == val + Shifted(low, i) + Pow128(i + 1) * v
  {
    var p := Pow128(i);
    assert p * (low + 128 * v) == low * p + (128 * p) * v;
  }

  lemma MiddleByte(bits: Bits, i: nat, val: nat, b: Bytes)
    requires i < MaxLen(bits) - 1
    ensures Plus(val, Pow128(i), ReadFrom(bits, i, b)) ==
            if b == [] then OutOfRange
            else if b[0] < 128 then
              if b[0] == 0 && i > 0 then NotMinimal else Read(val + Shifted(b[0] as int % 128, i), b[1..])
            else Plus(val + Shifted(b[0] as int % 128, i), Pow128(i + 1), ReadFrom(bits, i + 1, b[1..]))
  {
    hide Pow128, Shifted;
    if b != [] {
      assert b[0] < 128 ==> b[0] as int % 128 == b[0] as int;
      assert b[0] >= 128 ==> b[0] as int % 128 == b[0] as int - 128;
      var sub := ReadFrom(bits, i + 1, b[1..]);
      if b[0] < 128 {
        PlusStep(val, i, b[0] as int, 0);
      } else if sub.Read? {
        PlusStep(val, i, b[0] as int - 128, sub.value);
      }
    }
  }

  lemma LastByte(bits: Bits, val: nat, b: Bytes)
    ensures var i := MaxLen(bits) - 1;
            Plus(val, Pow128(i), ReadFrom(bits, i, b)) ==
            if b == [] then OutOfRange else Read(val + Shifted(b[0] as int, i) % Range(bits), b[1..])
  {
    hide Pow128, Shifted, Range, LastRange;
    if b != [] {
      ShiftedByte(bits, b[0]);
    }
  }

  method ReadUleb128(ds: InStream, bits: Bits) returns (o: Outcome)
    requires ds.Valid()
    modifies ds
    ensures ds.Valid() && o == ReadFrom(bits, 0, old(ds.Rest())) && (o.Read? ==> o.rest == ds.Rest())
  {
    hide ReadFrom, Pow128, Shifted, Plus;
    var val: nat, i := 0, 0;
    PlusNothing(ReadFrom(bits, 0, ds.Rest()));
    while i < MaxLen(bits) - 1
      invariant ds.Valid() && i <= MaxLen(bits) - 1
      invariant ReadFrom(bits, 0, old(ds.Rest())) == Plus(val, Pow128(i), ReadFrom(bits, i, ds.Rest()))
    {
      MiddleByte(bits, i, val, ds.Rest());
      var c := ds.Get();
      if c.None? {
        return OutOfRange;
      }
      val := val + Shifted(c.value as int % 128, i);
      if c.value < 128 {
        if c.value == 0 && i > 0 {
          return NotMinimal;
        }
        return Read(val, ds.buf[ds.pos..]);
      }
      i := i + 1;
    }
    LastByte(bits, val, ds.Rest());
    var c := ds.Get();
    if c.None? {
      return OutOfRange;
    }
    val := val + Shifted(c.value as int, i) % Range(bits);
    return Read(val, ds.buf[ds.pos..]);
  }

  lemma PlusNothing(o: Outcome)
    ensures Plus(0, Pow128(0), o) == o
  {
  }

  // ---- Zigzag ----

  /** The value of a signed number of the type. */
  predicate Signed(v: int, bits: Bits) {
    -(Range(bits) as int) <= 2 * v < Range(bits)
  }

  /** The bits of `x` read as an unsigned number, and as a signed one. */
  function ToUnsigned(x: int, bits: Bits): nat {
    x % Range(bits)
  }

  function ToSigned(x: int, bits: Bits): int {
    var u := x % Range(bits);
    if 2 * u < Range(bits) then u else u - Range(bits)
  }

  /** Exclusive or with all bits clear or all bits set. */
  function XorSign(negative: bool, x: int): int {
    if negative then -x - 1 else x
  }

  /** (v >> (bits - 1)) ^ (v << 1) */
  function ZigZag(v: int, bits: Bits): nat {
    ToUnsigned(XorSign(v < 0, ToSigned(2 * v, bits)), bits)
  }

  /** (u >> 1) ^ -(u & 1) */
  function UnZigZag(u: nat, bits: Bits): int {
    ToSigned(XorSign(u % 2 == 1, u / 2), bits)
  }

  /** Small numbers of either sign become small unsigned numbers. */
  lemma ZigZagValue(v: int, bits: Bits)
    requires Signed(v, bits)
    ensures ZigZag(v, bits) == if v < 0 then -2 * v - 1 else 2 * v
  {
    hide ToSigned, ToUnsigned;
    SignedIs(2 * v, bits);
    UnsignedIs(XorSign(v < 0, ToSigned(2 * v, bits)), bits);
  }

  lemma SignedIs(x: int, bits: Bits)
    requires -(Range(bits) as int) <= x < Range(bits)
    ensures ToSigned(x, bits) == if 2 * x < -(Range(bits) as int) then x + Range(bits)
                                 else if 2 * x >= Range(bits) then x - Range(bits)
                                 else x
  {
  }

  lemma UnsignedIs(x: int, bits: Bits)
    requires -(Range(bits) as int) <= x < Range(bits)
    ensures ToUnsigned(x, bits) == if x < 0 then x + Range(bits) else x
  {
  }

  lemma ZigZagRoundTrip(v: int, u: nat, bits: Bits)
    requires Signed(v, bits) && u < Range(bits)
    ensures ZigZag(v, bits) < Range(bits) && UnZigZag(ZigZag(v, bits), bits) == v
    ensures Signed(UnZigZag(u, bits), bits) && ZigZag(UnZigZag(u, bits), bits) == u
  {
    ZigZagValue(v, bits);
    UnZigZagValue(u, bits);
    UnZigZagValue(ZigZag(v, bits), bits);
    ZigZagValue(UnZigZag(u, bits), bits);
  }

  lemma UnZigZagValue(u: nat, bits: Bits)
    requires u < Range(bits)
    ensures UnZigZag(u, bits) == (if u % 2 == 1 then -(u / 2) - 1 else u / 2) && Signed(UnZigZag(u, bits), bits)
  {
  }

  method WriteZigzag(ds: OutStream, v: int, bits: Bits) returns (n: nat)
    requires Signed(v, bits) && |ds.out| + |Leb(ZigZag(v, bits))| <= ds.capacity
    modifies ds
    ensures ds.out == old(ds.out) + Leb(ZigZag(v, bits)) && n == |Leb(ZigZag(v, bits))|
  {
    ZigZagRoundTrip(v, 0, bits);
    n := WriteUleb128(ds, ZigZag(v, bits), bits);
  }

  /** A signed number written in zigzag form is read back, with what follows it. */
  method ReadZigzag(ds: InStream, bits: Bits, ghost v: int, ghost rest: Bytes) returns (o: Outcome, r: int)
    requires ds.Valid()
    modifies ds
    ensures ds.Valid() && o == ReadFrom(bits, 0, old(ds.Rest()))
    ensures r == if o.Read? then UnZigZag(o.value, bits) else 0
    ensures Signed(v, bits) && old(ds.Rest()) == Leb(ZigZag(v, bits)) + rest ==> o.Read? && r == v && ds.Rest() == rest
  {
    if Signed(v, bits) {
      ZigZagRoundTrip(v, 0, bits);
      RoundTrip(bits, ZigZag(v, bits), rest);
    }
    o := ReadUleb128(ds, bits);
    r := if o.Read? then UnZigZag(o.value, bits) else 0;
  }
}
