/** Big-endian integers and length-prefixed fields, as several formats use them. */
module Bytes {
  type Byte = n: nat | n < 256

  function Pow256(width: nat): (p: nat)
    ensures p > 0
  {
    if width == 0 then 1 else 256 * Pow256(width - 1)
  }

  /** The low `width` bytes of `n`, most significant first. */
  function BigEndian(n: nat, width: nat): (b: seq<Byte>)
    ensures |b| == width
  {
    if width == 0 then [] else BigEndian(n / 256, width - 1) + [n % 256]
  }

  function Value(b: seq<Byte>): (n: nat)
    ensures n < Pow256(|b|)
  {
    if |b| == 0 then 0 else Value(b[..|b| - 1]) * 256 + b[|b| - 1]
  }

  lemma {:induction false} ValueOfBigEndian(n: nat, width: nat)
    requires n < Pow256(width)
    ensures Value(BigEndian(n, width)) == n
  {
    if width > 0 {
      ValueOfBigEndian(n / 256, width - 1);
      var b := BigEndian(n, width);
      assert b[..|b| - 1] == BigEndian(n / 256, width - 1);
    }
  }

  lemma {:induction false} BigEndianOfValue(b: seq<Byte>)
    ensures BigEndian(Value(b), |b|) == b
  {
    if |b| > 0 {
      BigEndianOfValue(b[..|b| - 1]);
      assert b == b[..|b| - 1] + [b[|b| - 1]];
    }
  }

  /** `field` behind its length in `width` bytes. */
  function Prefixed(field: seq<Byte>, width: nat): (b: seq<Byte>) {
    BigEndian(|field|, width) + field
  }

  datatype Split = NoField | Field(field: seq<Byte>, rest: seq<Byte>)

  /** Split off one length-prefixed field. */
  function TakeField(b: seq<Byte>, width: nat): (s: Split)
    ensures s.Field? ==> |s.rest| <= |b| - width && |s.field| <= |b|
  {
    if |b| < width then NoField
    else
      var len := Value(b[..width]);
      if |b| - width < len then NoField
      else Field(b[width..width + len], b[width + len..])
  }

  /** Splitting undoes prefixing, whatever follows the field. */
  lemma {:induction false} TakePrefixed(field: seq<Byte>, rest: seq<Byte>, width: nat)
    requires |field| < Pow256(width)
    ensures TakeField(Prefixed(field, width) + rest, width) == Field(field, rest)
  {
    ValueOfBigEndian(|field|, width);
    var b := Prefixed(field, width) + rest;
    assert b[..width] == BigEndian(|field|, width);
    assert b[width..width + |field|] == field;
  }

  /** Only a prefixed field splits off. */
  lemma {:induction false} TakeIsPrefixed(b: seq<Byte>, width: nat)
    ensures var s := TakeField(b, width);
      s.Field? ==> |s.field| < Pow256(width) && b == Prefixed(s.field, width) + s.rest
  {
    var s := TakeField(b, width);
    if s.Field? {
      BigEndianOfValue(b[..width]);
      assert b == b[..width] + b[width..width + |s.field|] + b[width + |s.field|..];
    }
  }
}
