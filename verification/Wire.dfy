/** Little-endian wire integers, read and written at an offset, with their inverse laws. */
module Wire {
  import opened SemTypes

  type bytes = seq<u8>

  // ---------------------------------------------------------------- encodings

  function U16(v: u16): (r: bytes)
    ensures |r| == 2
  {
    [v % 0x100, v / 0x100]
  }

  function U32(v: u32): (r: bytes)
    ensures |r| == 4
  {
    U16(v % 0x1_0000) + U16(v / 0x1_0000)
  }

  function U64(v: u64): (r: bytes)
    ensures |r| == 8
  {
    U32(v % 0x1_0000_0000) + U32(v / 0x1_0000_0000)
  }

  function Unsigned16(v: i16): u16 { if v < 0 then v + 0x1_0000 else v }
  function Unsigned32(v: i32): u32 { if v < 0 then v + 0x1_0000_0000 else v }
  function Unsigned64(v: i64): u64 { if v < 0 then v + 0x1_0000_0000_0000_0000 else v }

  function Signed16(v: u16): i16 { if v < 0x8000 then v else v - 0x1_0000 }
  function Signed32(v: u32): i32 { if v < 0x8000_0000 then v else v - 0x1_0000_0000 }
  function Signed64(v: u64): i64 { if v < 0x8000_0000_0000_0000 then v else v - 0x1_0000_0000_0000_0000 }

  function I16(v: i16): (r: bytes) ensures |r| == 2 { U16(Unsigned16(v)) }
  function I32(v: i32): (r: bytes) ensures |r| == 4 { U32(Unsigned32(v)) }
  function I64(v: i64): (r: bytes) ensures |r| == 8 { U64(Unsigned64(v)) }

  // ---------------------------------------------------------------- decodings

  function GetU16(b: bytes, at: nat): u16
    requires at + 2 <= |b|
  {
    b[at] as int + 0x100 * b[at + 1] as int
  }

  function GetU32(b: bytes, at: nat): u32
    requires at + 4 <= |b|
  {
    GetU16(b, at) as int + 0x1_0000 * GetU16(b, at + 2) as int
  }

  function GetU64(b: bytes, at: nat): u64
    requires at + 8 <= |b|
  {
    GetU32(b, at) as int + 0x1_0000_0000 * GetU32(b, at + 4) as int
  }

  function GetI16(b: bytes, at: nat): i16 requires at + 2 <= |b| { Signed16(GetU16(b, at)) }
  function GetI32(b: bytes, at: nat): i32 requires at + 4 <= |b| { Signed32(GetU32(b, at)) }
  function GetI64(b: bytes, at: nat): i64 requires at + 8 <= |b| { Signed64(GetU64(b, at)) }

  // ---------------------------------------------------------------- inverse laws

  /** The two bytes at `at` are the encoding of `v` exactly when decoding them gives `v`. */
  lemma U16At(b: bytes, at: nat, v: u16)
    requires at + 2 <= |b|
    ensures GetU16(b, at) == v <==> b[at..at + 2] == U16(v)
  {
    assert b[at..at + 2] == [b[at], b[at + 1]];
  }

  lemma HalvesAt(b: bytes, at: nat, n: nat, low: bytes, high: bytes)
    requires at + n + n <= |b| && |low| == |high| == n
    ensures b[at..at + n + n] == low + high <==> b[at..at + n] == low && b[at + n..at + n + n] == high
  {
    var c := b[at..at + n + n];
    assert c[..n] == b[at..at + n] && c[n..] == b[at + n..at + n + n];
    assert (low + high)[..n] == low && (low + high)[n..] == high;
    assert c == c[..n] + c[n..];
  }

  lemma U32At(b: bytes, at: nat, v: u32)
    requires at + 4 <= |b|
    ensures GetU32(b, at) == v <==> b[at..at + 4] == U32(v)
  {
    var low, high := v % 0x1_0000, v / 0x1_0000;
    U16At(b, at, low);
    U16At(b, at + 2, high);
    HalvesAt(b, at, 2, U16(low), U16(high));
  }

  lemma U64At(b: bytes, at: nat, v: u64)
    requires at + 8 <= |b|
    ensures GetU64(b, at) == v <==> b[at..at + 8] == U64(v)
  {
    var low, high := v % 0x1_0000_0000, v / 0x1_0000_0000;
    U32At(b, at, low);
    U32At(b, at + 4, high);
    HalvesAt(b, at, 4, U32(low), U32(high));
  }

  lemma I16At(b: bytes, at: nat, v: i16)
    requires at + 2 <= |b|
    ensures GetI16(b, at) == v <==> b[at..at + 2] == I16(v)
  {
    U16At(b, at, Unsigned16(v));
  }

  lemma I32At(b: bytes, at: nat, v: i32)
    requires at + 4 <= |b|
    ensures GetI32(b, at) == v <==> b[at..at + 4] == I32(v)
  {
    U32At(b, at, Unsigned32(v));
  }

  lemma I64At(b: bytes, at: nat, v: i64)
    requires at + 8 <= |b|
    ensures GetI64(b, at) == v <==> b[at..at + 8] == I64(v)
  {
    U64At(b, at, Unsigned64(v));
  }

  /** A slice of a slice. */
  lemma Within(b: bytes, at: nat, e: bytes, i: nat, j: nat)
    requires at + |e| <= |b| && b[at..at + |e|] == e && i <= j <= |e|
    ensures b[at + i..at + j] == e[i..j]
  {
    forall k | 0 <= k < j - i
      ensures b[at + i..at + j][k] == e[i..j][k]
    {
      assert b[at + (i + k)] == b[at..at + |e|][i + k];
    }
  }

  // ---------------------------------------------------------------- writing in place

  function Splice(b: bytes, at: nat, piece: bytes): (r: bytes)
    requires at + |piece| <= |b|
    ensures |r| == |b|
  {
    b[..at] + piece + b[at + |piece|..]
  }

  /** `b` is `orig` with its beginning overwritten by `prefix`. */
  predicate Begins(b: bytes, orig: bytes, prefix: bytes) {
    |prefix| <= |b| == |orig| && b[..|prefix|] == prefix && b[|prefix|..] == orig[|prefix|..]
  }

  lemma Extends(b: bytes, orig: bytes, prefix: bytes, piece: bytes)
    requires Begins(b, orig, prefix) && |prefix| + |piece| <= |b|
    ensures Begins(Splice(b, |prefix|, piece), orig, prefix + piece)
  {
    var r, n := Splice(b, |prefix|, piece), |prefix| + |piece|;
    assert r[..n] == b[..|prefix|] + piece;
    assert r[n..] == b[|prefix|..][|piece|..] == orig[|prefix|..][|piece|..] == orig[n..];
  }

  lemma NothingYet(b: bytes)
    ensures Begins(b, b, [])
  {
  }

  lemma Spliced(b: bytes, orig: bytes, prefix: bytes)
    requires Begins(b, orig, prefix)
    ensures b == Splice(orig, 0, prefix)
  {
    assert b == b[..|prefix|] + b[|prefix|..];
  }

  method PutU16(output: array<u8>, at: nat, value: u16)
    requires at + 2 <= output.Length
    modifies output
    ensures output[..] == Splice(old(output[..]), at, U16(value))
  {
    output[at] := value % 0x100;
    output[at + 1] := value / 0x100;
  }

  method PutU32(output: array<u8>, at: nat, value: u32)
    requires at + 4 <= output.Length
    modifies output
    ensures output[..] == Splice(old(output[..]), at, U32(value))
  {
    output[at] := value % 0x100;
    output[at + 1] := value / 0x100 % 0x100;
    output[at + 2] := value / 0x1_0000 % 0x100;
    output[at + 3] := value / 0x100_0000;
    FourBytes(value);
    hide U32;
    assert output[at..at + 4] == U32(value);
    assert output[..] == output[..at] + output[at..at + 4] + output[at + 4..];
  }

  lemma FourBytes(v: u32)
    ensures U32(v) == [v % 0x100, v / 0x100 % 0x100, v / 0x1_0000 % 0x100, v / 0x100_0000]
  {
    var low, high := v % 0x1_0000, v / 0x1_0000;
    Digits(low % 0x100, low / 0x100, high % 0x100, high / 0x100, v);
  }

  lemma Digits(a: u8, b: u8, c: u8, d: u8, v: int)
    requires v == a + 0x100 * b + 0x1_0000 * c + 0x100_0000 * d
    ensures v % 0x100 == a && v / 0x100 % 0x100 == b && v / 0x1_0000 % 0x100 == c && v / 0x100_0000 == d
  {
    assert v / 0x100 == b + 0x100 * c + 0x1_0000 * d;
    assert v / 0x1_0000 == c + 0x100 * d;
  }

  method PutU64(output: array<u8>, at: nat, value: u64)
    requires at + 8 <= output.Length
    modifies output
    ensures output[..] == Splice(old(output[..]), at, U64(value))
  {
    PutU32(output, at, value % 0x1_0000_0000);
    PutU32(output, at + 4, value / 0x1_0000_0000);
  }

  method PutI16(output: array<u8>, at: nat, value: i16)
    requires at + 2 <= output.Length
    modifies output
    ensures output[..] == Splice(old(output[..]), at, I16(value))
  {
    PutU16(output, at, Unsigned16(value));
  }

  method PutI32(output: array<u8>, at: nat, value: i32)
    requires at + 4 <= output.Length
    modifies output
    ensures output[..] == Splice(old(output[..]), at, I32(value))
  {
    PutU32(output, at, Unsigned32(value));
  }

  method PutI64(output: array<u8>, at: nat, value: i64)
    requires at + 8 <= output.Length
    modifies output
    ensures output[..] == Splice(old(output[..]), at, I64(value))
  {
    PutU64(output, at, Unsigned64(value));
  }
}
