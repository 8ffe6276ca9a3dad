/** Bytes, big-endian 32-bit words and sequence facts shared by the models. */
module Bytes {

  type Byte = b: int | 0 <= b < 256

  const TWO32: int := 0x1_0000_0000

  type U32 = n: int | 0 <= n < 0x1_0000_0000

  /** The conversion uint32(n). */
  function Low32(n: nat): U32 { n % 0x1_0000_0000 }

  datatype Option<+T> = None | Some(value: T)

  /** binary.BigEndian.PutUint32 of a length: the conversion to uint32 keeps the low 32 bits. */
  function PutU32(n: nat): (b: seq<Byte>)
    ensures |b| == 4 && WordAt(b, 0) == Low32(n)
  {
    var w := Low32(n);
    [w / 256 / 256 / 256, w / 256 / 256 % 256, w / 256 % 256, w % 256]
  }

  /** binary.BigEndian.Uint32 of b[i:]. */
  function WordAt(b: seq<Byte>, i: nat): (n: U32)
    requires i + 4 <= |b|
  {
    Word(b[i], b[i + 1], b[i + 2], b[i + 3])
  }

  function Word(b0: int, b1: int, b2: int, b3: int): int
  {
    ((b0 * 256 + b1) * 256 + b2) * 256 + b3
  }

  function Min(a: int, b: int): int { if a < b then a else b }

  function Max(a: int, b: int): int { if a < b then b else a }

  /** The elements of a set in some order. */
  method Enumerate<T(==)>(s: set<T>) returns (items: seq<T>)
    ensures forall x :: x in items <==> x in s
    ensures |items| == |s|
    ensures forall i, j | 0 <= i < j < |items| :: items[i] != items[j]
  {
    var rest := s;
    items := [];
    while rest != {}
      invariant forall x :: x in items || x in rest <==> x in s
      invariant |items| + |rest| == |s|
      invariant forall x <- items :: x !in rest
      invariant forall i, j | 0 <= i < j < |items| :: items[i] != items[j]
      decreases |rest|
    {
      var x :| x in rest;
      items, rest := items + [x], rest - {x};
    }
  }
}
