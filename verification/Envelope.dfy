/** The binding of a runner secret envelope: length-prefixed authenticated data, and the envelope's layout. */
module Envelope {
  import opened Results

  type Byte = b: int | 0 <= b < 256
  type Bytes = seq<Byte>
  type U32 = n: int | 0 <= n < 0x1_0000_0000
  type U64 = n: int | 0 <= n < 0x1_0000_0000_0000_0000

  /** `runtrue.runner.secret-envelope.v1` and a NUL. */
  const DOMAIN: Bytes := [
    114, 117, 110, 116, 114, 117, 101, 46, 114, 117, 110, 110, 101, 114, 46, 115, 101, 99, 114, 101, 116, 45,
    101, 110, 118, 101, 108, 111, 112, 101, 46, 118, 49, 0]

  /** `ANVSEC01`. */
  const MAGIC: Bytes := [65, 78, 86, 83, 69, 67, 48, 49]

  const KEY_BYTES: nat := 32
  const NONCE_BYTES: nat := 24

  datatype Error = BindingTooLarge

  /** The ten bound values; texts are their UTF-8 bytes. */
  datatype Binding = Binding(
    executionLeaseId: Bytes, fencingGeneration: U64, installationFencingEpoch: U64, jobId: Bytes, jobAttempt: U32,
    stepId: Bytes, secretLeaseId: Bytes, secretMetadataId: Bytes, purpose: Bytes, expiresUnixMs: U64)

  // ---------------------------------------------------------------- numbers

  function Power256(width: nat): nat { if width == 0 then 1 else 256 * Power256(width - 1) }

  /** `to_be_bytes` for a value of `width` bytes. */
  function BigEndian(n: nat, width: nat): (r: Bytes)
    ensures |r| == width
  {
    if width == 0 then [] else BigEndian(n / 256, width - 1) + [n % 256]
  }

  function FromBigEndian(b: Bytes): nat {
    if b == [] then 0 else FromBigEndian(b[..|b| - 1]) * 256 + b[|b| - 1]
  }

  lemma {:induction false} BigEndianRead(n: nat, width: nat)
    requires n < Power256(width)
    ensures FromBigEndian(BigEndian(n, width)) == n
  {
    if width > 0 {
      BigEndianRead(n / 256, width - 1);
      assert BigEndian(n, width)[..width - 1] == BigEndian(n / 256, width - 1);
    }
  }

  lemma {:induction false} BigEndianWritten(b: Bytes)
    ensures FromBigEndian(b) < Power256(|b|)
    ensures BigEndian(FromBigEndian(b), |b|) == b
  {
    if b != [] {
      var init, last := b[..|b| - 1], b[|b| - 1];
      BigEndianWritten(init);
      assert (FromBigEndian(init) * 256 + last) / 256 == FromBigEndian(init);
      assert (FromBigEndian(init) * 256 + last) % 256 == last;
      assert b == init + [last];
    }
  }

  lemma Widths()
    ensures Power256(4) == 0x1_0000_0000 && Power256(8) == 0x1_0000_0000_0000_0000
  {
    assert Power256(2) == 0x1_0000;
    assert Power256(4) == 256 * (256 * Power256(2));
    assert Power256(6) == 256 * (256 * Power256(4));
    assert Power256(8) == 256 * (256 * Power256(6));
  }

  // ---------------------------------------------------------------- encoding

  const FIELD_LIMIT: nat := 0x1_0000_0000

  predicate FieldFits(value: Bytes) { |value| < FIELD_LIMIT }

  function EncodeField(value: Bytes): Bytes { BigEndian(|value|, 4) + value }

  /** The encoded fields one after another. */
  function EncodeFields(fields: seq<Bytes>): Bytes {
    if fields == [] then [] else EncodeFields(fields[..|fields| - 1]) + EncodeField(fields[|fields| - 1])
  }

  function FieldsOf(b: Binding): seq<Bytes> {
    [b.executionLeaseId, BigEndian(b.fencingGeneration, 8), BigEndian(b.installationFencingEpoch, 8), b.jobId,
     BigEndian(b.jobAttempt, 4), b.stepId, b.secretLeaseId, b.secretMetadataId, b.purpose, BigEndian(b.expiresUnixMs, 8)]
  }

  /** The texts whose lengths the encoder admits. */
  predicate Encodable(b: Binding) {
    && FieldFits(b.executionLeaseId) && FieldFits(b.jobId) && FieldFits(b.stepId)
    && FieldFits(b.secretLeaseId) && FieldFits(b.secretMetadataId) && FieldFits(b.purpose)
  }

  lemma EncodeOneMore(fields: seq<Bytes>, value: Bytes)
    ensures EncodeFields(fields + [value]) == EncodeFields(fields) + EncodeField(value)
  {
    assert (fields + [value])[..|fields|] == fields;
  }

  /** The buffer that the authenticated data grows in; `fields` are the ones appended so far. */
  class AadBuffer {
    var bytes: Bytes
    ghost var fields: seq<Bytes>

    ghost predicate Valid()
      reads this
    {
      bytes == DOMAIN + EncodeFields(fields)
    }

    constructor ()
      ensures Valid() && fields == []
    {
      bytes, fields := DOMAIN, [];
    }

    /** `append_field`. */
    method AppendField(value: Bytes) returns (ok: bool)
      requires Valid()
      modifies this
      ensures Valid()
      ensures ok == FieldFits(value)
      ensures fields == if ok then old(fields) + [value] else old(fields)
    {
      if |value| >= FIELD_LIMIT { return false; }
      EncodeOneMore(fields, value);
      bytes := bytes + BigEndian(|value|, 4);
      bytes := bytes + value;
      fields := fields + [value];
      ok := true;
    }
  }

  /** `SecretEnvelopeBinding::aad`. */
  method Aad(b: Binding) returns (res: Result<Bytes, Error>)
    ensures res == if Encodable(b) then Ok(DOMAIN + EncodeFields(FieldsOf(b))) else Err(BindingTooLarge)
  {
    var aad := new AadBuffer();
    var ok := aad.AppendField(b.executionLeaseId);
    if !ok { return Err(BindingTooLarge); }
    ok := aad.AppendField(BigEndian(b.fencingGeneration, 8));
    ok := aad.AppendField(BigEndian(b.installationFencingEpoch, 8));
    ok := aad.AppendField(b.jobId);
    if !ok { return Err(BindingTooLarge); }
    ok := aad.AppendField(BigEndian(b.jobAttempt, 4));
    ok := aad.AppendField(b.stepId);
    if !ok { return Err(BindingTooLarge); }
    ok := aad.AppendField(b.secretLeaseId);
    if !ok { return Err(BindingTooLarge); }
    ok := aad.AppendField(b.secretMetadataId);
    if !ok { return Err(BindingTooLarge); }
    ok := aad.AppendField(b.purpose);
    if !ok { return Err(BindingTooLarge); }
    ok := aad.AppendField(BigEndian(b.expiresUnixMs, 8));
    assert aad.fields == FieldsOf(b);
    res := Ok(aad.bytes);
  }

  // ---------------------------------------------------------------- decoding

  /** Reads one field from the front. */
  function DecodeField(bytes: Bytes): Option<(Bytes, Bytes)> {
    if |bytes| < 4 then None
    else
      var length := FromBigEndian(bytes[..4]);
      if |bytes| - 4 < length then None else Some((bytes[4..4 + length], bytes[4 + length..]))
  }

  /** Reads `count` fields that use up all bytes. */
  function DecodeFields(bytes: Bytes, count: nat): Option<seq<Bytes>> {
    if count == 0 then if bytes == [] then Some([]) else None
    else
      match DecodeField(bytes)
      case None => None
      case Some((field, rest)) =>
        match DecodeFields(rest, count - 1)
        case None => None
        case Some(fields) => Some([field] + fields)
  }

  function DecodeAad(bytes: Bytes): Option<Binding> {
    if !(DOMAIN <= bytes) then None
    else
      match DecodeFields(bytes[|DOMAIN|..], 10)
      case None => None
      case Some(f) =>
        if |f| != 10 || |f[1]| != 8 || |f[2]| != 8 || |f[4]| != 4 || |f[9]| != 8 then None
        else Bound(f)
  }

  function Bound(f: seq<Bytes>): Option<Binding>
    requires |f| == 10 && |f[1]| == 8 && |f[2]| == 8 && |f[4]| == 4 && |f[9]| == 8
  {
    BigEndianWritten(f[1]);
    BigEndianWritten(f[2]);
    BigEndianWritten(f[4]);
    BigEndianWritten(f[9]);
    Widths();
    Some(Binding(f[0], FromBigEndian(f[1]), FromBigEndian(f[2]), f[3], FromBigEndian(f[4]), f[5], f[6], f[7], f[8], FromBigEndian(f[9])))
  }

  lemma DecodeEncodedField(value: Bytes, rest: Bytes)
    requires FieldFits(value)
    ensures DecodeField(EncodeField(value) + rest) == Some((value, rest))
  {
    var bytes := EncodeField(value) + rest;
    Widths();
    BigEndianRead(|value|, 4);
    assert bytes[..4] == BigEndian(|value|, 4);
    assert bytes[4..4 + |value|] == value && bytes[4 + |value|..] == rest;
  }

  lemma {:induction false} EncodeFieldsFront(fields: seq<Bytes>)
    requires fields != []
    ensures EncodeFields(fields) == EncodeField(fields[0]) + EncodeFields(fields[1..])
  {
    hide EncodeField;
    if |fields| == 1 {
      assert fields[..0] == [] && fields[1..] == [];
    } else {
      var init, rest, last := fields[..|fields| - 1], fields[1..], fields[|fields| - 1];
      EncodeFieldsFront(init);
      assert init[1..] == rest[..|rest| - 1] && rest[|rest| - 1] == last;
      calc {
        EncodeFields(fields);
        EncodeFields(init) + EncodeField(last);
        (EncodeField(fields[0]) + EncodeFields(init[1..])) + EncodeField(last);
        EncodeField(fields[0]) + (EncodeFields(init[1..]) + EncodeField(last));
        EncodeField(fields[0]) + EncodeFields(rest);
      }
    }
  }

  lemma {:induction false} DecodeEncodedFields(fields: seq<Bytes>)
    requires forall i :: 0 <= i < |fields| ==> FieldFits(fields[i])
    ensures DecodeFields(EncodeFields(fields), |fields|) == Some(fields)
  {
    if fields != [] {
      EncodeFieldsFront(fields);
      DecodeEncodedField(fields[0], EncodeFields(fields[1..]));
      DecodeEncodedFields(fields[1..]);
      assert fields == [fields[0]] + fields[1..];
    }
  }

  /** Decoding gives back every encodable binding, all ten fields of it. */
  lemma AadRoundTrip(b: Binding)
    requires Encodable(b)
    ensures DecodeAad(DOMAIN + EncodeFields(FieldsOf(b))) == Some(b)
  {
    var f := FieldsOf(b);
    var bytes := DOMAIN + EncodeFields(f);
    assert bytes[|DOMAIN|..] == EncodeFields(f);
    DecodeEncodedFields(f);
    Widths();
    BigEndianRead(b.fencingGeneration, 8);
    BigEndianRead(b.installationFencingEpoch, 8);
    BigEndianRead(b.jobAttempt, 4);
    BigEndianRead(b.expiresUnixMs, 8);
  }

  /** Two bindings with the same authenticated data are the same binding. */
  lemma AadInjective(a: Binding, b: Binding)
    requires Encodable(a) && Encodable(b)
    requires DOMAIN + EncodeFields(FieldsOf(a)) == DOMAIN + EncodeFields(FieldsOf(b))
    ensures a == b
  {
    AadRoundTrip(a);
    AadRoundTrip(b);
  }

  lemma DecodedFieldEncodes(bytes: Bytes)
    requires DecodeField(bytes).Some?
    ensures var (field, rest) := DecodeField(bytes).value; FieldFits(field) && bytes == EncodeField(field) + rest
  {
    var length := FromBigEndian(bytes[..4]);
    BigEndianWritten(bytes[..4]);
    Widths();
    assert bytes == bytes[..4] + (bytes[4..4 + length] + bytes[4 + length..]);
  }

  lemma {:induction false} DecodedFieldsEncode(bytes: Bytes, count: nat)
    requires DecodeFields(bytes, count).Some?
    ensures var f := DecodeFields(bytes, count).value;
      |f| == count && EncodeFields(f) == bytes && forall i :: 0 <= i < |f| ==> FieldFits(f[i])
  {
    if count > 0 {
      DecodedFieldEncodes(bytes);
      var (field, rest) := DecodeField(bytes).value;
      DecodedFieldsEncode(rest, count - 1);
      var f := DecodeFields(bytes, count).value;
      assert f[1..] == DecodeFields(rest, count - 1).value;
      EncodeFieldsFront(f);
    }
  }

  /** The decoder accepts nothing but the encoder's output. */
  lemma DecodedIsEncoded(bytes: Bytes)
    requires DecodeAad(bytes).Some?
    ensures var b := DecodeAad(bytes).value; Encodable(b) && bytes == DOMAIN + EncodeFields(FieldsOf(b))
  {
    var body := bytes[|DOMAIN|..];
    DecodedFieldsEncode(body, 10);
    var f := DecodeFields(body, 10).value;
    var b := DecodeAad(bytes).value;
    BigEndianWritten(f[1]);
    BigEndianWritten(f[2]);
    BigEndianWritten(f[4]);
    BigEndianWritten(f[9]);
    assert FieldsOf(b) == f;
    assert FieldFits(f[0]) && FieldFits(f[3]) && FieldFits(f[5]) && FieldFits(f[6]) && FieldFits(f[7]) && FieldFits(f[8]);
    assert bytes == DOMAIN + body;
  }

  // ---------------------------------------------------------------- the envelope

  datatype Parts = Parts(ephemeralKey: Bytes, nonce: Bytes, ciphertext: Bytes)

  predicate Sized(p: Parts) { |p.ephemeralKey| == KEY_BYTES && |p.nonce| == NONCE_BYTES }

  /** The layout at the end of `seal`, for a ciphertext computed elsewhere. */
  method Assemble(p: Parts) returns (envelope: Bytes)
    requires Sized(p)
    ensures Opened(envelope) == Some(p)
  {
    envelope := [];
    envelope := envelope + MAGIC;
    envelope := envelope + p.ephemeralKey;
    envelope := envelope + p.nonce;
    envelope := envelope + p.ciphertext;
    assert envelope == MAGIC + p.ephemeralKey + p.nonce + p.ciphertext;
    assert envelope[8..40] == p.ephemeralKey && envelope[40..64] == p.nonce && envelope[64..] == p.ciphertext;
  }

  /** How a guest takes an envelope apart. */
  function Opened(envelope: Bytes): Option<Parts> {
    if |envelope| < 64 || !(MAGIC <= envelope) then None
    else Some(Parts(envelope[8..40], envelope[40..64], envelope[64..]))
  }
}
