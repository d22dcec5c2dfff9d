/** The bytes of a slot file (server/src/locker.rs): a magic, a version, four
length-prefixed fields, a digest of all that and of the record, and the record.

The codec works on `Parts`, the fields as byte strings; `Envelope` gives the
nonce and the sequence number their values. */
module EnvelopeCodec {
  import opened Bytes
  import opened Wrappers

  const MAGIC_LEN := 12
  const VERSION := 1
  const NONCE_LEN := 32
  const NUMBER_LEN := 8
  const DIGEST_LEN := 32
  const U16_MAX := 65535

  datatype Parts = Parts(nonce: seq<Byte>, number: seq<Byte>, part: seq<Byte>, serial: seq<Byte>, record: seq<Byte>)

  /** One tenant's magic, the digest over prefix and record, and which bytes are
      UTF-8 text. */
  datatype Scheme = Scheme(
    magic: seq<Byte>,
    digest: (seq<Byte>, seq<Byte>) -> seq<Byte>,
    utf8: seq<Byte> -> bool)

  ghost predicate Valid(s: Scheme) {
    |s.magic| == MAGIC_LEN && forall p, r :: |s.digest(p, r)| == DIGEST_LEN
  }

  // ---- Encoding

  /** A field, cut to what a 16-bit length can say. */
  function Clip(field: seq<Byte>): (r: seq<Byte>)
    ensures |r| <= U16_MAX
  {
    if |field| <= U16_MAX then field else field[..U16_MAX]
  }

  function Put(field: seq<Byte>): seq<Byte> {
    Prefixed(Clip(field), 2)
  }

  function Header(s: Scheme): seq<Byte> {
    s.magic + BigEndian(VERSION, 2)
  }

  function FieldBytes(p: Parts): seq<Byte> {
    Put(p.nonce) + (Put(p.number) + (Put(p.part) + Put(p.serial)))
  }

  /** Everything before the digest. */
  function Prefix(s: Scheme, p: Parts): seq<Byte> {
    Header(s) + FieldBytes(p)
  }

  function EncodeParts(s: Scheme, p: Parts): seq<Byte> {
    Prefix(s, p) + (Put(s.digest(Prefix(s, p), p.record)) + p.record)
  }

  // ---- Decoding

  /** What follows the magic and the version, if both are right. */
  function Body(s: Scheme, b: seq<Byte>): (r: Option<seq<Byte>>)
    ensures r.Some? ==> |r.value| <= |b|
  {
    if |b| < |s.magic| + 2 || b[..|s.magic|] != s.magic then None
    else if Value(b[|s.magic|..|s.magic| + 2]) != VERSION then None
    else Some(b[|s.magic| + 2..])
  }

  /** The four fields, and what follows them in place of the record. */
  function TakeFields(b: seq<Byte>): (r: Option<Parts>)
    ensures r.Some? ==> |r.value.record| <= |b|
  {
    match TakeField(b, 2)
    case NoField => None
    case Field(nonce, b1) => match TakeField(b1, 2)
      case NoField => None
      case Field(number, b2) => match TakeField(b2, 2)
        case NoField => None
        case Field(part, b3) => match TakeField(b3, 2)
          case NoField => None
          case Field(serial, b4) => Some(Parts(nonce, number, part, serial, b4))
  }

  /** Check the fields, and the digest over `prefix` and the record. */
  function Unseal(s: Scheme, prefix: seq<Byte>, f: Parts): Option<Parts> {
    if |f.nonce| != NONCE_LEN || |f.number| != NUMBER_LEN then None
    else match TakeField(f.record, 2)
      case NoField => None
      case Field(digest, record) =>
        if |digest| != DIGEST_LEN || !s.utf8(f.part) || !s.utf8(f.serial) then None
        else if s.digest(prefix, record) != digest then None
        else Some(f.(record := record))
  }

  function DecodeParts(s: Scheme, b: seq<Byte>): Option<Parts> {
    match Body(s, b)
    case None => None
    case Some(body) => match TakeFields(body)
      case None => None
      case Some(f) => Unseal(s, b[..|b| - |f.record|], f)
  }

  ghost predicate WellFormed(s: Scheme, p: Parts) {
    |p.nonce| == NONCE_LEN && |p.number| == NUMBER_LEN && s.utf8(p.part) && s.utf8(p.serial)
  }

  ghost predicate Fits(p: Parts) {
    |p.part| <= U16_MAX && |p.serial| <= U16_MAX
  }

  // ---- Decoding undoes encoding

  lemma {:induction false} U16Width()
    ensures Pow256(2) == U16_MAX + 1
  {
  }

  lemma {:induction false} BodyAfterHeader(s: Scheme, body: seq<Byte>)
    requires Valid(s)
    ensures Body(s, Header(s) + body) == Some(body)
  {
    U16Width();
    ValueOfBigEndian(VERSION, 2);
    var b := Header(s) + body;
    assert b[..|s.magic|] == s.magic;
    assert b[|s.magic|..|s.magic| + 2] == BigEndian(VERSION, 2);
  }

  lemma {:induction false} HeaderBeforeBody(s: Scheme, b: seq<Byte>)
    requires Valid(s) && Body(s, b).Some?
    ensures b == Header(s) + Body(s, b).value
  {
    var version := b[|s.magic|..|s.magic| + 2];
    BigEndianOfValue(version);
    assert b == b[..|s.magic|] + version + b[|s.magic| + 2..];
  }

  lemma {:induction false} TakeFieldsOfPut(p: Parts, rest: seq<Byte>)
    ensures TakeFields(FieldBytes(p) + rest) ==
            Some(Parts(Clip(p.nonce), Clip(p.number), Clip(p.part), Clip(p.serial), rest))
  {
    U16Width();
    var b3 := Put(p.serial) + rest;
    var b2 := Put(p.part) + b3;
    var b1 := Put(p.number) + b2;
    assert FieldBytes(p) + rest == Put(p.nonce) + b1;
    TakePrefixed(Clip(p.nonce), b1, 2);
    TakePrefixed(Clip(p.number), b2, 2);
    TakePrefixed(Clip(p.part), b3, 2);
    TakePrefixed(Clip(p.serial), rest, 2);
  }

  lemma {:induction false} PutOfTake(b: seq<Byte>)
    ensures var f := TakeField(b, 2);
      f.Field? ==> |f.field| <= U16_MAX && b == Put(f.field) + f.rest
  {
    U16Width();
    TakeIsPrefixed(b, 2);
  }

  lemma {:induction false} Regroup(a: seq<Byte>, b: seq<Byte>, c: seq<Byte>, d: seq<Byte>, rest: seq<Byte>)
    ensures a + (b + (c + (d + rest))) == (a + (b + (c + d))) + rest
  {
  }

  lemma {:induction false} PutOfTakeFields(b: seq<Byte>)
    ensures var f := TakeFields(b);
      f.Some? ==>
        && |f.value.nonce| <= U16_MAX && |f.value.number| <= U16_MAX && Fits(f.value)
        && b == FieldBytes(f.value) + f.value.record
  {
    var f := TakeFields(b);
    if f.Some? {
      var p := f.value;
      var b1 := TakeField(b, 2).rest;
      var b2 := TakeField(b1, 2).rest;
      var b3 := TakeField(b2, 2).rest;
      PutOfTake(b);
      PutOfTake(b1);
      PutOfTake(b2);
      PutOfTake(b3);
      Regroup(Put(p.nonce), Put(p.number), Put(p.part), Put(p.serial), p.record);
    }
  }

  /** What decoding an encoding yields: the parts with the baseboard clipped, if
      what is left is still text. */
  lemma {:induction false} DecodeOfEncode(s: Scheme, p: Parts)
    requires Valid(s) && WellFormed(s, p)
    ensures DecodeParts(s, EncodeParts(s, p)) ==
            if s.utf8(Clip(p.part)) && s.utf8(Clip(p.serial))
            then Some(p.(part := Clip(p.part), serial := Clip(p.serial))) else None
  {
    U16Width();
    var prefix := Prefix(s, p);
    var digest := s.digest(prefix, p.record);
    var tail := Put(digest) + p.record;
    var b := EncodeParts(s, p);
    assert b == Header(s) + (FieldBytes(p) + tail);
    assert b[..|b| - |tail|] == prefix;
    BodyAfterHeader(s, FieldBytes(p) + tail);
    TakeFieldsOfPut(p, tail);
    TakePrefixed(digest, p.record, 2);
  }

  /** Split off `k` length-prefixed fields. */
  function TakeMany(b: seq<Byte>, k: nat): Option<(seq<seq<Byte>>, seq<Byte>)> {
    if k == 0 then Some(([], b))
    else match TakeField(b, 2)
      case NoField => None
      case Field(field, rest) =>
        match TakeMany(rest, k - 1)
        case None => None
        case Some(more) => Some(([field] + more.0, more.1))
  }

  lemma {:induction false} TakeOneMore(field: seq<Byte>, rest: seq<Byte>, more: seq<seq<Byte>>, all: seq<seq<Byte>>, last: seq<Byte>)
    requires TakeMany(rest, |more|) == Some((more, last)) && all == [Clip(field)] + more
    ensures TakeMany(Put(field) + rest, |all|) == Some((all, last))
  {
    U16Width();
    TakePrefixed(Clip(field), rest, 2);
  }

  /** Where everything is in a slot file: twelve bytes of magic, two of version, and
      then, each behind its length, nonce, number, both halves of the baseboard and
      the 32-byte digest of all before it and the record, with the record last. */
  lemma {:induction false} Layout(s: Scheme, p: Parts)
    requires Valid(s) && WellFormed(s, p)
    ensures var b := EncodeParts(s, p);
      var start := |b| - |p.record| - 34;
      && start >= 14 && b[..12] == s.magic && Value(b[12..14]) == 1
      && var fields := [p.nonce, p.number, Clip(p.part), Clip(p.serial), s.digest(b[..start], p.record)];
         TakeMany(b[14..], |fields|) == Some((fields, p.record))
  {
    U16Width();
    ValueOfBigEndian(VERSION, 2);
    var digest := s.digest(Prefix(s, p), p.record);
    var b5 := Put(digest) + p.record;
    var b4 := Put(p.serial) + b5;
    var b3 := Put(p.part) + b4;
    var b2 := Put(p.number) + b3;
    var b1 := Put(p.nonce) + b2;
    var f1 := [digest];
    var f2 := [Clip(p.serial)] + f1;
    var f3 := [Clip(p.part)] + f2;
    var f4 := [p.number] + f3;
    var f5 := [p.nonce] + f4;
    TakeOneMore(digest, p.record, [], f1, p.record);
    TakeOneMore(p.serial, b5, f1, f2, p.record);
    TakeOneMore(p.part, b4, f2, f3, p.record);
    TakeOneMore(p.number, b3, f3, f4, p.record);
    TakeOneMore(p.nonce, b2, f4, f5, p.record);
    assert f5 == [p.nonce, p.number, Clip(p.part), Clip(p.serial), digest];
    LayoutBytes(s, p, b1, b5);
  }

  lemma {:induction false} LayoutBytes(s: Scheme, p: Parts, body: seq<Byte>, tail: seq<Byte>)
    requires Valid(s) && WellFormed(s, p)
    requires tail == Put(s.digest(Prefix(s, p), p.record)) + p.record
    requires body == Put(p.nonce) + (Put(p.number) + (Put(p.part) + (Put(p.serial) + tail)))
    ensures var b := EncodeParts(s, p);
      && |tail| == |p.record| + 34 && |b| >= 14 + |tail|
      && b[..12] == s.magic && b[12..14] == BigEndian(VERSION, 2) && b[14..] == body
      && b[..|b| - |tail|] == Prefix(s, p)
  {
    Regroup(Put(p.nonce), Put(p.number), Put(p.part), Put(p.serial), tail);
    assert EncodeParts(s, p) == Header(s) + body;
  }

  /** Parts survive the round trip exactly when both halves of the baseboard fit
      a 16-bit length. */
  lemma {:induction false} PartsRoundTrip(s: Scheme, p: Parts)
    requires Valid(s) && WellFormed(s, p)
    ensures DecodeParts(s, EncodeParts(s, p)) == Some(p) <==> Fits(p)
  {
    DecodeOfEncode(s, p);
  }

  /** Nothing decodes but the encoding of what it decodes to. */
  lemma {:induction false} OnlyEncodingsDecode(s: Scheme, b: seq<Byte>)
    requires Valid(s) && DecodeParts(s, b).Some?
    ensures var p := DecodeParts(s, b).value;
      WellFormed(s, p) && Fits(p) && b == EncodeParts(s, p)
  {
    var f := TakeFields(Body(s, b).value).value;
    var p := DecodeParts(s, b).value;
    var digest := TakeField(f.record, 2).field;
    FieldsOfDecodable(s, b);
    assert b[..|b| - |f.record|] == Prefix(s, f) == Prefix(s, p);
    assert digest == s.digest(Prefix(s, p), p.record);
    assert f.record == Put(digest) + p.record by { TakeIsPrefixed(f.record, 2); }
  }

  lemma {:induction false} FieldsOfDecodable(s: Scheme, b: seq<Byte>)
    requires Valid(s) && Body(s, b).Some? && TakeFields(Body(s, b).value).Some?
    ensures var f := TakeFields(Body(s, b).value).value;
      Fits(f) && b == Prefix(s, f) + f.record && b[..|b| - |f.record|] == Prefix(s, f)
  {
    HeaderBeforeBody(s, b);
    PutOfTakeFields(Body(s, b).value);
    var f := TakeFields(Body(s, b).value).value;
    assert b == Prefix(s, f) + f.record;
  }

  /** The digest a file carries. */
  function DigestOf(s: Scheme, p: Parts): seq<Byte> {
    s.digest(Prefix(s, p), p.record)
  }

  /** Two different inputs of the digest that it does not tell apart. */
  ghost predicate Collision(s: Scheme, p: Parts, q: Parts) {
    && (Prefix(s, p) != Prefix(s, q) || p.record != q.record)
    && DigestOf(s, p) == DigestOf(s, q)
  }

  /** Two files that both decode and carry the same digest are the same bytes, or
      they are a collision of the digest: no other damage outside the digest field
      turns one readable file into another. */
  lemma {:induction false} DigestIdentifiesFile(s: Scheme, b: seq<Byte>, c: seq<Byte>)
    requires Valid(s)
    requires DecodeParts(s, b).Some? && DecodeParts(s, c).Some?
    requires DigestOf(s, DecodeParts(s, b).value) == DigestOf(s, DecodeParts(s, c).value)
    ensures b != c <==> Collision(s, DecodeParts(s, b).value, DecodeParts(s, c).value)
  {
    OnlyEncodingsDecode(s, b);
    OnlyEncodingsDecode(s, c);
  }

  // ---- Values of the nonce and the number

  datatype Envelope = Envelope(nonce: nat, number: nat, part: seq<Byte>, serial: seq<Byte>, record: seq<Byte>)

  /** Nonces are truncated code phrases: only their low 88 bits are kept. */
  const NONCE_BITS_LEN := 11

  function ToParts(e: Envelope): Parts {
    Parts(BigEndian(e.nonce, NONCE_LEN), BigEndian(e.number, NUMBER_LEN), e.part, e.serial, e.record)
  }

  function FromParts(p: Parts): Envelope {
    Envelope(Value(p.nonce) % Pow256(NONCE_BITS_LEN), Value(p.number), p.part, p.serial, p.record)
  }

  function Encode(s: Scheme, e: Envelope): seq<Byte> { EncodeParts(s, ToParts(e)) }

  function Decode(s: Scheme, b: seq<Byte>): Option<Envelope> {
    match DecodeParts(s, b)
    case None => None
    case Some(p) => Some(FromParts(p))
  }

  ghost predicate Sound(s: Scheme, e: Envelope) {
    && e.nonce < Pow256(NONCE_BITS_LEN) && e.number < Pow256(NUMBER_LEN)
    && s.utf8(e.part) && s.utf8(e.serial)
  }

  lemma {:induction false} Pow256Grows(a: nat, b: nat)
    requires a <= b
    ensures Pow256(a) <= Pow256(b)
  {
    if a < b {
      Pow256Grows(a, b - 1);
    }
  }

  lemma {:induction false} NumbersRoundTrip(n: nat, width: nat, kept: nat)
    requires kept <= width && n < Pow256(kept)
    ensures Value(BigEndian(n, width)) == n && n % Pow256(kept) == n
  {
    Pow256Grows(kept, width);
    ValueOfBigEndian(n, width);
    SmallRemainder(n, Pow256(kept));
  }

  lemma {:induction false} SmallRemainder(n: nat, m: nat)
    requires n < m
    ensures n % m == n
  {
  }

  /** An envelope that a tenant writes reads back exactly when its baseboard
      fits; otherwise the load sees corruption or another sled's baseboard. */
  lemma {:induction false} RoundTrip(s: Scheme, e: Envelope)
    requires Valid(s) && Sound(s, e)
    ensures Decode(s, Encode(s, e)) == Some(e) <==> |e.part| <= U16_MAX && |e.serial| <= U16_MAX
  {
    DecodeOfEncode(s, ToParts(e));
    NumbersRoundTrip(e.nonce, NONCE_LEN, NONCE_BITS_LEN);
    NumbersRoundTrip(e.number, NUMBER_LEN, NUMBER_LEN);
  }

  /** Bytes that decode are the encoding of what they decode to, unless the
      nonce field carries bits above the low 88. */
  lemma {:induction false} DecodeIsExact(s: Scheme, b: seq<Byte>)
    requires Valid(s) && Decode(s, b).Some?
    ensures var e := Decode(s, b).value;
      Sound(s, e) && (b == Encode(s, e) <==> Value(DecodeParts(s, b).value.nonce) < Pow256(NONCE_BITS_LEN))
  {
    OnlyEncodingsDecode(s, b);
    var p := DecodeParts(s, b).value;
    var e := FromParts(p);
    BigEndianOfValue(p.nonce);
    BigEndianOfValue(p.number);
    if Value(p.nonce) < Pow256(NONCE_BITS_LEN) {
      SmallRemainder(Value(p.nonce), Pow256(NONCE_BITS_LEN));
      assert ToParts(e) == p;
    } else if b == Encode(s, e) {
      PartsRoundTrip(s, ToParts(e));
      NumbersRoundTrip(e.nonce, NONCE_LEN, NONCE_BITS_LEN);
      assert false;
    }
  }
}
