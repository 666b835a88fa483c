/** The frozen v1 wire codecs (`protocol/codec.ts`, `framing/wire.ts`) and the nonce schedule.
    Each encoder fills a buffer and is proved against a byte-string specification; each decoder
    accepts exactly the encodings, so accepted bytes re-encode to themselves. */
module Codec {
  import opened Bytes

  const PROTOCOL_VERSION: int := 1
  const TRANSCRIPT_VERSION: int := 1
  const CONVERSATION_ID_BYTES: int := 16
  const SESSION_ID_BYTES: int := 32
  const PUBLIC_KEY_BYTES: int := 65
  const SIGNATURE_BYTES: int := 64
  const SEC1_UNCOMPRESSED_PREFIX: int := 4
  const GCM_NONCE_BYTES: int := 12
  const GCM_TAG_BYTES: int := 16
  const MAX_TEXT_FRAME_BYTES: int := 16384
  const MAX_CHUNK_BYTES: int := 16384
  const FRAME_AAD_BYTES: int := 46
  const FRAME_HEADER_BYTES: int := 50
  const TRANSCRIPT_BYTES: int := 343

  const TEXT: int := 1
  const FILE_MANIFEST: int := 2
  const FILE_CHUNK: int := 3
  const CONTROL: int := 4
  const MEDIA_MANIFEST: int := 5
  const MEDIA_CHUNK: int := 6

  const SAFETY_NUMBER_ONLY: int := 1
  const PAKE: int := 2

  datatype ProtocolError =
    | InvalidLength | InvalidRange | InvalidFieldRelation | InvalidEncoding | PointNotOnCurve
    | InvalidEnum | InvalidVersion | LimitExceeded | RoleIndeterminable | Malformed

  // ----- Frame AAD -----

  datatype FrameAad = FrameAad(
    protocolVersion: int,
    senderSessionId: Bytes,
    senderSequence: int,
    frameType: int,
    transferId: int,
    chunkId: int)

  predicate IsUint32(v: int) { 0 <= v <= UINT32_MAX }

  predicate IsFrameType(t: int) { TEXT <= t <= MEDIA_CHUNK }

  /** `assertFrameFieldRelations`: which ids a frame type may carry. */
  predicate FieldsRelated(frameType: int, transferId: int, chunkId: int)
  {
    if frameType == TEXT || frameType == CONTROL then transferId == 0 && chunkId == 0
    else if frameType == FILE_MANIFEST || frameType == MEDIA_MANIFEST then chunkId == 0 && transferId != 0
    else transferId != 0
  }

  /** The first assertion of `assertAadFields` that fails, if any. */
  function AadFault(a: FrameAad): Option<ProtocolError>
  {
    if a.protocolVersion != PROTOCOL_VERSION then Some(InvalidVersion)
    else if |a.senderSessionId| != SESSION_ID_BYTES then Some(InvalidLength)
    else if !IsUint32(a.senderSequence) || !IsUint32(a.transferId) || !IsUint32(a.chunkId) then Some(InvalidRange)
    else if !IsFrameType(a.frameType) then Some(InvalidEnum)
    else if !FieldsRelated(a.frameType, a.transferId, a.chunkId) then Some(InvalidFieldRelation)
    else None
  }

  function AadBytes(a: FrameAad): (b: Bytes)
    requires AadFault(a).None?
    ensures |b| == FRAME_AAD_BYTES
  {
    [a.protocolVersion] + a.senderSessionId + Uint32Bytes(a.senderSequence)
    + [a.frameType] + Uint32Bytes(a.transferId) + Uint32Bytes(a.chunkId)
  }

  method EncodeAad(a: FrameAad) returns (r: Result<Bytes, ProtocolError>)
    ensures AadFault(a).Some? ==> r == Err(AadFault(a).value)
    ensures AadFault(a).None? ==> r == Ok(AadBytes(a))
  {
    if AadFault(a).Some? {
      return Err(AadFault(a).value);
    }
    var out := new byte[FRAME_AAD_BYTES](_ => 0);
    PutByte(out, 0, a.protocolVersion);
    assert out[..1] == [a.protocolVersion];
    SetBytes(out, 1, a.senderSessionId);
    WriteUint32Be(out, 33, a.senderSequence);
    PutByte(out, 37, a.frameType);
    WriteUint32Be(out, 38, a.transferId);
    WriteUint32Be(out, 42, a.chunkId);
    assert out[..] == out[..46];
    return Ok(out[..]);
  }

  function DecodeAad(b: Bytes): Result<FrameAad, ProtocolError>
  {
    if |b| != FRAME_AAD_BYTES then Err(InvalidLength)
    else if b[0] != PROTOCOL_VERSION then Err(InvalidVersion)
    else if !IsFrameType(b[37]) then Err(InvalidEnum)
    else
      var transferId := Uint32At(b, 38);
      var chunkId := Uint32At(b, 42);
      if !FieldsRelated(b[37], transferId, chunkId) then Err(InvalidFieldRelation)
      else Ok(FrameAad(b[0], b[1..33], Uint32At(b, 33), b[37], transferId, chunkId))
  }

  lemma Inner(before: Bytes, part: Bytes, after: Bytes)
    ensures (before + part + after)[|before|..|before| + |part|] == part
  {
  }

  lemma AadDecodes(a: FrameAad)
    requires AadFault(a).None?
    ensures DecodeAad(AadBytes(a)) == Ok(a)
  {
    var b := AadBytes(a);
    var head := [a.protocolVersion] + a.senderSessionId;
    var typed := head + Uint32Bytes(a.senderSequence) + [a.frameType];
    assert b == typed + Uint32Bytes(a.transferId) + Uint32Bytes(a.chunkId);
    Inner(head, Uint32Bytes(a.senderSequence), [a.frameType]);
    Inner(typed, Uint32Bytes(a.transferId), Uint32Bytes(a.chunkId));
    Inner(typed + Uint32Bytes(a.transferId), Uint32Bytes(a.chunkId), []);
    assert b[1..33] == typed[1..33] == a.senderSessionId && b[33..37] == typed[33..37];
    Uint32In(b, 33, a.senderSequence);
    Uint32In(b, 38, a.transferId);
    Uint32In(b, 42, a.chunkId);
  }

  /** Decoding and encoding are inverse: `b` decodes to `a` exactly when `a` encodes to `b`. */
  lemma AadInverse(a: FrameAad, b: Bytes)
    ensures DecodeAad(b) == Ok(a) <==> AadFault(a).None? && AadBytes(a) == b
  {
    if AadFault(a).None? && AadBytes(a) == b {
      AadDecodes(a);
    }
    if DecodeAad(b) == Ok(a) {
      Uint32Exact(b, 33);
      Uint32Exact(b, 38);
      Uint32Exact(b, 42);
      assert b == [b[0]] + b[1..33] + b[33..37] + [b[37]] + b[38..42] + b[42..46];
    }
  }

  lemma Uint32In(b: Bytes, at: nat, v: uint32)
    requires at + 4 <= |b| && b[at..at + 4] == Uint32Bytes(v)
    ensures Uint32At(b, at) == v
  {
    Uint32Exact(b, at);
    Uint32Injective(Uint32At(b, at), v);
  }

  // ----- Frame header and wire frame -----

  datatype FrameHeader = FrameHeader(aad: FrameAad, ciphertextLength: int)

  function CiphertextCap(frameType: int): nat
  {
    if frameType == FILE_CHUNK || frameType == MEDIA_CHUNK then MAX_CHUNK_BYTES else MAX_TEXT_FRAME_BYTES
  }

  function HeaderFault(h: FrameHeader): Option<ProtocolError>
  {
    if AadFault(h.aad).Some? then AadFault(h.aad)
    else if !IsUint32(h.ciphertextLength) then Some(InvalidRange)
    else if h.ciphertextLength > CiphertextCap(h.aad.frameType) then Some(LimitExceeded)
    else None
  }

  function HeaderBytes(h: FrameHeader): (b: Bytes)
    requires HeaderFault(h).None?
    ensures |b| == FRAME_HEADER_BYTES
  {
    AadBytes(h.aad) + Uint32Bytes(h.ciphertextLength)
  }

  function DecodeFrameHeader(b: Bytes): Result<FrameHeader, ProtocolError>
  {
    if |b| != FRAME_HEADER_BYTES then Err(InvalidLength)
    else match DecodeAad(b[..FRAME_AAD_BYTES])
      case Err(e) => Err(e)
      case Ok(a) =>
        var ciphertextLength := Uint32At(b, FRAME_AAD_BYTES);
        if ciphertextLength > CiphertextCap(a.frameType) then Err(LimitExceeded)
        else Ok(FrameHeader(a, ciphertextLength))
  }

  lemma HeaderInverse(h: FrameHeader, b: Bytes)
    ensures DecodeFrameHeader(b) == Ok(h) <==> HeaderFault(h).None? && HeaderBytes(h) == b
  {
    if |b| == FRAME_HEADER_BYTES {
      AadInverse(h.aad, b[..46]);
      assert b == b[..46] + b[46..50];
      Uint32Exact(b, 46);
      if HeaderFault(h).None? && HeaderBytes(h) == b {
        Uint32In(b, 46, h.ciphertextLength);
      }
    }
  }

  datatype WireFrame = WireFrame(header: FrameHeader, nonce: Bytes, ciphertext: Bytes)

  /** `encodeWireFrame` checks the nonce and the header, but not that the header declares the
      length of the ciphertext it is given. */
  function WireFault(w: WireFrame): Option<ProtocolError>
  {
    if |w.nonce| != GCM_NONCE_BYTES then Some(Malformed) else HeaderFault(w.header)
  }

  function WireBytes(w: WireFrame): Bytes
    requires WireFault(w).None?
  {
    HeaderBytes(w.header) + w.nonce + w.ciphertext
  }

  method EncodeWireFrame(w: WireFrame) returns (r: Result<Bytes, ProtocolError>)
    ensures WireFault(w).Some? ==> r == Err(WireFault(w).value)
    ensures WireFault(w).None? ==> r == Ok(WireBytes(w))
  {
    if WireFault(w).Some? {
      return Err(WireFault(w).value);
    }
    var aad := EncodeAad(w.header.aad);
    var out := new byte[FRAME_HEADER_BYTES + GCM_NONCE_BYTES + |w.ciphertext|](_ => 0);
    SetBytes(out, 0, aad.value);
    assert out[..FRAME_AAD_BYTES] == aad.value;
    WriteUint32Be(out, FRAME_AAD_BYTES, w.header.ciphertextLength);
    SetBytes(out, FRAME_HEADER_BYTES, w.nonce);
    SetBytes(out, FRAME_HEADER_BYTES + GCM_NONCE_BYTES, w.ciphertext);
    assert out[..] == out[..FRAME_HEADER_BYTES + GCM_NONCE_BYTES + |w.ciphertext|];
    return Ok(out[..]);
  }

  function DecodeWireFrame(b: Bytes): Result<WireFrame, ProtocolError>
  {
    if |b| < FRAME_HEADER_BYTES + GCM_NONCE_BYTES then Err(Malformed)
    else match DecodeFrameHeader(b[..FRAME_HEADER_BYTES])
      case Err(_) => Err(Malformed)
      case Ok(h) =>
        if |b| != FRAME_HEADER_BYTES + GCM_NONCE_BYTES + h.ciphertextLength then Err(Malformed)
        else Ok(WireFrame(h, b[FRAME_HEADER_BYTES..FRAME_HEADER_BYTES + GCM_NONCE_BYTES],
                             b[FRAME_HEADER_BYTES + GCM_NONCE_BYTES..]))
  }

  /** The receiver accepts a byte string as `w` exactly when a sender encodes `w` to it with the
      ciphertext length it declares. */
  lemma WireInverse(w: WireFrame, b: Bytes)
    ensures DecodeWireFrame(b) == Ok(w)
       <==> WireFault(w).None? && WireBytes(w) == b && |w.ciphertext| == w.header.ciphertextLength
  {
    if |b| >= 62 {
      HeaderInverse(w.header, b[..50]);
      assert b == b[..50] + b[50..62] + b[62..];
      if WireFault(w).None? && WireBytes(w) == b {
        assert b[..50] == HeaderBytes(w.header) && b[50..62] == w.nonce && b[62..] == w.ciphertext;
      }
    }
  }

  // ----- Nonces -----

  /** Four bytes xored into `s` at `at`. */
  function XoredAt(s: Bytes, at: nat, q: Bytes): (x: Bytes)
    requires |q| == 4 && at + 4 == |s|
    ensures |x| == |s|
  {
    s[..at] + [Xor(s[at], q[0]), Xor(s[at + 1], q[1]), Xor(s[at + 2], q[2]), Xor(s[at + 3], q[3])]
  }

  /** `deriveNonce`: the session id's first twelve bytes with the sequence xored into the last four. */
  function Nonce(session: Bytes, sequence: uint32): (n: Bytes)
    requires |session| == SESSION_ID_BYTES
    ensures |n| == GCM_NONCE_BYTES
  {
    XoredAt(session[..GCM_NONCE_BYTES], 8, Uint32Bytes(sequence))
  }

  method DeriveNonce(session: Bytes, sequence: int) returns (r: Result<Bytes, ProtocolError>)
    ensures |session| != SESSION_ID_BYTES ==> r == Err(InvalidLength)
    ensures |session| == SESSION_ID_BYTES && !IsUint32(sequence) ==> r == Err(InvalidRange)
    ensures |session| == SESSION_ID_BYTES && IsUint32(sequence) ==> r == Ok(Nonce(session, sequence))
  {
    if |session| != SESSION_ID_BYTES {
      return Err(InvalidLength);
    }
    if !IsUint32(sequence) {
      return Err(InvalidRange);
    }
    var nonce := new byte[GCM_NONCE_BYTES](_ => 0);
    SetBytes(nonce, 0, session[..GCM_NONCE_BYTES]);
    assert nonce[..] == nonce[..GCM_NONCE_BYTES] == session[..GCM_NONCE_BYTES];
    XorInto(nonce, 8, Uint32Bytes(sequence));
    return Ok(nonce[..]);
  }

  /** The four `^=` writes. */
  method XorInto(target: array<byte>, at: nat, q: Bytes)
    requires |q| == 4 && at + 4 == target.Length
    modifies target
    ensures target[..] == XoredAt(old(target[..]), at, q)
  {
    target[at] := Xor(target[at], q[0]);
    target[at + 1] := Xor(target[at + 1], q[1]);
    target[at + 2] := Xor(target[at + 2], q[2]);
    target[at + 3] := Xor(target[at + 3], q[3]);
  }

  lemma XoredByte(s: Bytes, at: nat, q: Bytes, i: nat)
    requires |q| == 4 && at + 4 == |s| && i < 4
    ensures XoredAt(s, at, q)[at + i] == Xor(s[at + i], q[i])
  {
  }

  lemma XoredInjective(s: Bytes, at: nat, p: Bytes, q: Bytes)
    requires |p| == |q| == 4 && at + 4 == |s|
    requires XoredAt(s, at, p) == XoredAt(s, at, q)
    ensures p == q
  {
    forall i | 0 <= i < 4 ensures p[i] == q[i] {
      XoredByte(s, at, p, i);
      XoredByte(s, at, q, i);
      XorInjective(s[at + i], p[i], q[i]);
    }
  }

  /** Two sequences of one session never share a nonce. */
  lemma NonceInjective(session: Bytes, a: uint32, b: uint32)
    requires |session| == SESSION_ID_BYTES
    requires Nonce(session, a) == Nonce(session, b)
    ensures a == b
  {
    var p, q := Uint32Bytes(a), Uint32Bytes(b);
    XoredInjective(session[..GCM_NONCE_BYTES], 8, p, q);
    Uint32Injective(a, b);
  }

  // ----- Keys, roles and the transfer-cancel payload -----

  /** `encodePublicKey`; the curve test of the elliptic-curve library is a parameter. */
  function PublicKeyFault(onCurve: Bytes -> bool, key: Bytes): Option<ProtocolError>
  {
    if |key| != PUBLIC_KEY_BYTES then Some(InvalidLength)
    else if key[0] != SEC1_UNCOMPRESSED_PREFIX then Some(InvalidEncoding)
    else if !onCurve(key) then Some(PointNotOnCurve)
    else None
  }

  datatype Role = Initiator | Responder

  /** `deriveRole`: the lexicographically smaller identity key initiates. */
  function DeriveRole(local: Bytes, remote: Bytes): Result<Role, ProtocolError>
  {
    if |local| != PUBLIC_KEY_BYTES || |remote| != PUBLIC_KEY_BYTES then Err(InvalidLength)
    else if Compare(local, remote) == 0 then Err(RoleIndeterminable)
    else Ok(if Compare(local, remote) < 0 then Initiator else Responder)
  }

  /** Two peers derive opposite roles, and fail together exactly when their keys are equal. */
  lemma RolesOpposite(a: Bytes, b: Bytes)
    requires |a| == |b| == PUBLIC_KEY_BYTES
    ensures a == b ==> DeriveRole(a, b) == DeriveRole(b, a) == Err(RoleIndeterminable)
    ensures a != b ==> DeriveRole(a, b).Ok? && DeriveRole(b, a).Ok?
    ensures a != b ==> DeriveRole(a, b).value != DeriveRole(b, a).value
  {
    CompareZero(a, b);
    CompareAntisymmetric(a, b);
  }

  function DecodeTransferCancel(payload: Bytes): Result<uint32, ProtocolError>
  {
    if |payload| != 4 then Err(InvalidLength) else Ok(Uint32At(payload, 0))
  }

  lemma TransferCancelInverse(transferId: uint32, payload: Bytes)
    ensures DecodeTransferCancel(payload) == Ok(transferId) <==> payload == Uint32Bytes(transferId)
  {
    if |payload| == 4 {
      Uint32Exact(payload, 0);
      assert payload[0..4] == payload;
    }
  }
}
