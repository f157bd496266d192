/** Byte strings and big-endian integer fields. */
module Bytes {

  type byte = b: int | 0 <= b < 256

  type bytes = seq<byte>

  /** The number of values a field of `width` bytes can hold. */
  function Limit(width: nat): nat { if width == 0 then 1 else 256 * Limit(width - 1) }

  function BigEndian(n: nat, width: nat): (field: bytes)
    ensures |field| == width
  {
    if width == 0 then [] else BigEndian(n / 256, width - 1) + [n % 256]
  }

  function Value(field: bytes): nat {
    if field == [] then 0 else Value(field[..|field| - 1]) * 256 + field[|field| - 1]
  }

  lemma {:induction false} PackUnpack(n: nat, width: nat)
    requires n < Limit(width)
    ensures Value(BigEndian(n, width)) == n
  {
    if width > 0 {
      PackUnpack(n / 256, width - 1);
      assert BigEndian(n, width)[..width - 1] == BigEndian(n / 256, width - 1);
    }
  }

  lemma {:induction false} UnpackPack(field: bytes)
    ensures Value(field) < Limit(|field|) && BigEndian(Value(field), |field|) == field
  {
    if field != [] {
      UnpackPack(field[..|field| - 1]);
      assert field == field[..|field| - 1] + [field[|field| - 1]];
    }
  }

  lemma Cut<T>(front: seq<T>, rest: seq<T>)
    ensures (front + rest)[..|front|] == front && (front + rest)[|front|..] == rest
  {
  }
}
