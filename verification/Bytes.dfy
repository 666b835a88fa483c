/** Bytes, big-endian integers, byte-order comparison and buffer filling: the vocabulary
    every wire codec of the runtime shares. */
module Bytes {

  type byte = x: int | 0 <= x < 256
  type Bytes = seq<byte>
  type uint32 = x: int | 0 <= x <= UINT32_MAX

  const UINT32_MAX: int := 0xffff_ffff

  datatype Option<+T> = None | Some(value: T)

  datatype Result<+T, +E> = Ok(value: T) | Err(error: E)

  function Uint32Bytes(v: uint32): (b: Bytes)
    ensures |b| == 4 && Uint32At(b, 0) == v
  {
    [v / 256 / 256 / 256, v / 256 / 256 % 256, v / 256 % 256, v % 256]
  }

  function Uint32At(b: Bytes, at: nat): (v: uint32)
    requires at + 4 <= |b|
  {
    ((b[at] as int * 256 + b[at + 1] as int) * 256 + b[at + 2] as int) * 256 + b[at + 3] as int
  }

  /** Big-endian reading is one to one: the four bytes are the bytes of the number they read as. */
  lemma Uint32Exact(b: Bytes, at: nat)
    requires at + 4 <= |b|
    ensures Uint32Bytes(Uint32At(b, at)) == b[at..at + 4]
  {
    var v := Uint32At(b, at);
    assert v / 256 == (b[at] as int * 256 + b[at + 1] as int) * 256 + b[at + 2] as int;
    assert v / 256 / 256 == b[at] as int * 256 + b[at + 1] as int;
  }

  lemma Uint32Injective(a: uint32, b: uint32)
    requires Uint32Bytes(a) == Uint32Bytes(b)
    ensures a == b
  {
    assert Uint32At(Uint32Bytes(a), 0) == Uint32At(Uint32Bytes(b), 0);
  }

  /** `TypedArray.prototype.set`: copy `src` into `target` starting at `offset`. */
  method SetBytes(target: array<byte>, offset: nat, src: Bytes)
    requires offset + |src| <= target.Length
    modifies target
    ensures target[..offset + |src|] == old(target[..offset]) + src
    ensures target[offset + |src|..] == old(target[offset + |src|..])
  {
    for i := 0 to |src|
      invariant target[..offset + i] == old(target[..offset]) + src[..i]
      invariant target[offset + i..] == old(target[offset + i..])
    {
      ghost var rest := target[offset + i..];
      target[offset + i] := src[i];
      assert target[offset + i + 1..] == rest[1..];
      assert target[..offset + i + 1] == target[..offset + i] + [src[i]];
    }
  }

  /** `out[offset] = value`. */
  method PutByte(target: array<byte>, offset: nat, value: byte)
    requires offset < target.Length
    modifies target
    ensures target[..offset + 1] == old(target[..offset]) + [value]
    ensures target[offset + 1..] == old(target[offset + 1..])
  {
    target[offset] := value;
  }

  /** `writeUint32Be`. */
  method WriteUint32Be(target: array<byte>, offset: nat, value: uint32)
    requires offset + 4 <= target.Length
    modifies target
    ensures target[..offset + 4] == old(target[..offset]) + Uint32Bytes(value)
    ensures target[offset + 4..] == old(target[offset + 4..])
  {
    target[offset] := value / 256 / 256 / 256;
    target[offset + 1] := value / 256 / 256 % 256;
    target[offset + 2] := value / 256 % 256;
    target[offset + 3] := value % 256;
  }

  /** A fresh buffer holding `b`. */
  method NewBuffer(b: Bytes) returns (buffer: array<byte>)
    ensures fresh(buffer) && buffer[..] == b
  {
    buffer := new byte[|b|](_ => 0);
    SetBytes(buffer, 0, b);
    assert buffer[..] == buffer[..|b|];
  }

  /** `zeroize`, `fill(0)`. */
  method Zeroize(buffer: array<byte>)
    modifies buffer
    ensures forall i :: 0 <= i < buffer.Length ==> buffer[i] == 0
  {
    for i := 0 to buffer.Length
      invariant forall k :: 0 <= k < i ==> buffer[k] == 0
    {
      buffer[i] := 0;
    }
  }

  /** Byte strings written one after another. */
  function Joined(parts: seq<Bytes>): Bytes
  {
    if parts == [] then [] else Joined(parts[..|parts| - 1]) + parts[|parts| - 1]
  }

  lemma SomeInt(s: set<int>)
    ensures s == {} || exists k: int :: k in s
  {
    if forall k: int :: k !in s {
      assert s == {};
    }
  }

  /** Lexicographic byte order with the shorter string first: negative, zero or positive. */
  function Compare(a: Bytes, b: Bytes): int
  {
    if a == [] || b == [] then |a| - |b|
    else if a[0] != b[0] then a[0] as int - b[0] as int
    else Compare(a[1..], b[1..])
  }

  /** The `compareBytes` loop of the codec, the safety number and the pairwise id. */
  method CompareBytes(a: Bytes, b: Bytes) returns (order: int)
    ensures order == Compare(a, b)
  {
    var len := if |a| <= |b| then |a| else |b|;
    for i := 0 to len
      invariant Compare(a, b) == Compare(a[i..], b[i..])
    {
      if a[i] != b[i] {
        return a[i] as int - b[i] as int;
      }
      assert a[i..][1..] == a[i + 1..] && b[i..][1..] == b[i + 1..];
    }
    return |a| - |b|;
  }

  lemma {:induction false} CompareAntisymmetric(a: Bytes, b: Bytes)
    ensures Compare(a, b) == -Compare(b, a)
  {
    if a != [] && b != [] && a[0] == b[0] {
      CompareAntisymmetric(a[1..], b[1..]);
    }
  }

  /** The order is total: only equal strings compare as equal. */
  lemma {:induction false} CompareZero(a: Bytes, b: Bytes)
    ensures Compare(a, b) == 0 <==> a == b
  {
    if a != [] && b != [] && a[0] == b[0] {
      CompareZero(a[1..], b[1..]);
      assert a == [a[0]] + a[1..] && b == [b[0]] + b[1..];
    }
  }

  lemma {:induction false} CompareTransitive(a: Bytes, b: Bytes, c: Bytes)
    requires Compare(a, b) <= 0 && Compare(b, c) <= 0
    ensures Compare(a, c) <= 0
  {
    if a != [] && b != [] && c != [] && a[0] == b[0] == c[0] {
      CompareTransitive(a[1..], b[1..], c[1..]);
    }
  }

  function Pow2(n: nat): (p: nat)
    ensures p > 0
  {
    if n == 0 then 1 else 2 * Pow2(n - 1)
  }

  /** Exclusive or of the lowest bits. */
  function Bit(a: nat, b: nat): (x: nat)
    ensures x < 2
  {
    (a % 2 + b % 2) % 2
  }

  /** Exclusive or of the low `bits` bits, bit by bit. */
  function XorBits(a: nat, b: nat, bits: nat): (x: nat)
    ensures x < Pow2(bits)
    decreases bits
  {
    if bits == 0 then 0 else 2 * XorBits(a / 2, b / 2, bits - 1) + Bit(a, b)
  }

  lemma BitInjective(a: nat, b: nat, c: nat)
    requires Bit(a, b) == Bit(a, c)
    ensures b % 2 == c % 2
  {
  }

  lemma SameHalves(x: nat, i: nat, y: nat, j: nat)
    requires 2 * x + i == 2 * y + j && i < 2 && j < 2
    ensures x == y && i == j
  {
  }

  lemma {:induction false} XorBitsInjective(a: nat, b: nat, c: nat, bits: nat)
    requires b < Pow2(bits) && c < Pow2(bits)
    requires XorBits(a, b, bits) == XorBits(a, c, bits)
    ensures b == c
    decreases bits
  {
    if bits > 0 {
      SameHalves(XorBits(a / 2, b / 2, bits - 1), Bit(a, b), XorBits(a / 2, c / 2, bits - 1), Bit(a, c));
      BitInjective(a, b, c);
      assert b / 2 < Pow2(bits - 1) && c / 2 < Pow2(bits - 1);
      XorBitsInjective(a / 2, b / 2, c / 2, bits - 1);
      assert b == 2 * (b / 2) + b % 2 && c == 2 * (c / 2) + c % 2;
    }
  }

  /** The `^=` of two bytes. */
  function Xor(a: byte, b: byte): byte
  {
    assert Pow2(8) == 256;
    XorBits(a, b, 8)
  }

  lemma XorInjective(a: byte, b: byte, c: byte)
    requires Xor(a, b) == Xor(a, c)
    ensures b == c
  {
    assert Pow2(8) == 256;
    XorBitsInjective(a, b, c, 8);
  }
}
