/** The transcript both peers sign, the hello message, and the key schedule
    (`orchestrator/handshake-codec.ts`, `protocol/codec.ts`, `crypto/session.ts`). */
module HandshakeCodec {
  import opened Bytes
  import opened Codec

  // ----- The transcript -----

  datatype Transcript = Transcript(
    transcriptVersion: int,
    protocolVersion: int,
    conversationId: Bytes,
    authMode: int,
    initiatorIdentityKey: Bytes,
    responderIdentityKey: Bytes,
    initiatorEphemeralKey: Bytes,
    responderEphemeralKey: Bytes,
    initiatorSessionId: Bytes,
    responderSessionId: Bytes)

  predicate IsAuthMode(m: int) { m == SAFETY_NUMBER_ONLY || m == PAKE }

  /** The first assertion of `encodeTranscript` that fails, if any. */
  function TranscriptFault(t: Transcript): Option<ProtocolError>
  {
    if t.transcriptVersion != TRANSCRIPT_VERSION then Some(InvalidVersion)
    else if t.protocolVersion != PROTOCOL_VERSION then Some(InvalidVersion)
    else if !IsAuthMode(t.authMode) then Some(InvalidEnum)
    else if |t.conversationId| != CONVERSATION_ID_BYTES
      || |t.initiatorIdentityKey| != PUBLIC_KEY_BYTES || |t.responderIdentityKey| != PUBLIC_KEY_BYTES
      || |t.initiatorEphemeralKey| != PUBLIC_KEY_BYTES || |t.responderEphemeralKey| != PUBLIC_KEY_BYTES
      || |t.initiatorSessionId| != SESSION_ID_BYTES || |t.responderSessionId| != SESSION_ID_BYTES
    then Some(InvalidLength)
    else None
  }

  /** Versions, conversation and auth mode. */
  function HeadBytes(t: Transcript): (b: Bytes)
    requires TranscriptFault(t).None?
    ensures |b| == 19
  {
    [t.transcriptVersion] + [t.protocolVersion] + t.conversationId + [t.authMode]
  }

  function IdentityBytes(t: Transcript): (b: Bytes)
    requires TranscriptFault(t).None?
    ensures |b| == 130
  {
    t.initiatorIdentityKey + t.responderIdentityKey
  }

  function EphemeralBytes(t: Transcript): (b: Bytes)
    requires TranscriptFault(t).None?
    ensures |b| == 130
  {
    t.initiatorEphemeralKey + t.responderEphemeralKey
  }

  function SessionBytes(t: Transcript): (b: Bytes)
    requires TranscriptFault(t).None?
    ensures |b| == 64
  {
    t.initiatorSessionId + t.responderSessionId
  }

  function TranscriptBytes(t: Transcript): (b: Bytes)
    requires TranscriptFault(t).None?
    ensures |b| == TRANSCRIPT_BYTES
  {
    HeadBytes(t) + IdentityBytes(t) + EphemeralBytes(t) + SessionBytes(t)
  }

  method EncodeTranscript(t: Transcript) returns (r: Result<Bytes, ProtocolError>)
    ensures TranscriptFault(t).Some? ==> r == Err(TranscriptFault(t).value)
    ensures TranscriptFault(t).None? ==> r == Ok(TranscriptBytes(t))
  {
    if TranscriptFault(t).Some? {
      return Err(TranscriptFault(t).value);
    }
    var out := new byte[TRANSCRIPT_BYTES](_ => 0);
    var offset := 0;
    PutByte(out, offset, t.transcriptVersion);
    offset := offset + 1;
    PutByte(out, offset, t.protocolVersion);
    offset := offset + 1;
    SetBytes(out, offset, t.conversationId);
    offset := offset + CONVERSATION_ID_BYTES;
    PutByte(out, offset, t.authMode);
    offset := offset + 1;
    assert out[..offset] == HeadBytes(t);
    SetPair(out, offset, t.initiatorIdentityKey, t.responderIdentityKey);
    offset := offset + 2 * PUBLIC_KEY_BYTES;
    SetPair(out, offset, t.initiatorEphemeralKey, t.responderEphemeralKey);
    offset := offset + 2 * PUBLIC_KEY_BYTES;
    SetPair(out, offset, t.initiatorSessionId, t.responderSessionId);
    offset := offset + 2 * SESSION_ID_BYTES;
    assert out[..offset] == out[..];
    return Ok(out[..]);
  }

  /** Two `out.set` calls in a row, initiator then responder. */
  method SetPair(out: array<byte>, offset: nat, first: Bytes, second: Bytes)
    requires offset + |first| + |second| <= out.Length
    modifies out
    ensures out[..offset + |first| + |second|] == old(out[..offset]) + (first + second)
  {
    SetBytes(out, offset, first);
    SetBytes(out, offset + |first|, second);
  }

  /** `decodeTranscript`; the curve test is a parameter. */
  function DecodeTranscript(onCurve: Bytes -> bool, b: Bytes): Result<Transcript, ProtocolError>
  {
    if |b| != TRANSCRIPT_BYTES then Err(InvalidLength)
    else if b[0] != TRANSCRIPT_VERSION then Err(InvalidVersion)
    else if b[1] != PROTOCOL_VERSION then Err(InvalidVersion)
    else if !IsAuthMode(b[18]) then Err(InvalidEnum)
    else if PublicKeyFault(onCurve, b[19..84]).Some? then Err(PublicKeyFault(onCurve, b[19..84]).value)
    else if PublicKeyFault(onCurve, b[84..149]).Some? then Err(PublicKeyFault(onCurve, b[84..149]).value)
    else if PublicKeyFault(onCurve, b[149..214]).Some? then Err(PublicKeyFault(onCurve, b[149..214]).value)
    else if PublicKeyFault(onCurve, b[214..279]).Some? then Err(PublicKeyFault(onCurve, b[214..279]).value)
    else Ok(Transcript(b[0], b[1], b[2..18], b[18], b[19..84], b[84..149], b[149..214], b[214..279], b[279..311], b[311..]))
  }

  predicate KeysValid(onCurve: Bytes -> bool, t: Transcript)
  {
    PublicKeyFault(onCurve, t.initiatorIdentityKey).None? && PublicKeyFault(onCurve, t.responderIdentityKey).None?
    && PublicKeyFault(onCurve, t.initiatorEphemeralKey).None? && PublicKeyFault(onCurve, t.responderEphemeralKey).None?
  }

  lemma TranscriptSlices(t: Transcript, b: Bytes)
    requires TranscriptFault(t).None? && b == TranscriptBytes(t)
    ensures b[0] == t.transcriptVersion && b[1] == t.protocolVersion && b[2..18] == t.conversationId && b[18] == t.authMode
    ensures b[19..84] == t.initiatorIdentityKey && b[84..149] == t.responderIdentityKey
    ensures b[149..214] == t.initiatorEphemeralKey && b[214..279] == t.responderEphemeralKey
    ensures b[279..311] == t.initiatorSessionId && b[311..] == t.responderSessionId
  {
    var h, i, e, s := b[..19], b[19..149], b[149..279], b[279..];
    assert h == HeadBytes(t) && i == IdentityBytes(t) && e == EphemeralBytes(t) && s == SessionBytes(t);
    assert b[2..18] == h[2..18];
    assert b[19..84] == i[..65] && b[84..149] == i[65..];
    assert b[149..214] == e[..65] && b[214..279] == e[65..];
    assert b[279..311] == s[..32] && b[311..] == s[32..];
  }

  /** Decoding and encoding are inverse on transcripts whose four keys are valid points. */
  lemma TranscriptInverse(onCurve: Bytes -> bool, t: Transcript, b: Bytes)
    ensures DecodeTranscript(onCurve, b) == Ok(t)
       <==> TranscriptFault(t).None? && KeysValid(onCurve, t) && TranscriptBytes(t) == b
  {
    if TranscriptFault(t).None? && KeysValid(onCurve, t) && TranscriptBytes(t) == b {
      TranscriptSlices(t, b);
    }
    if DecodeTranscript(onCurve, b) == Ok(t) {
      assert b[..19] == HeadBytes(t);
      assert b[19..149] == IdentityBytes(t) && b[149..279] == EphemeralBytes(t) && b[279..] == SessionBytes(t);
      assert b == b[..19] + b[19..149] + b[149..279] + b[279..];
    }
  }

  /** The signed bytes determine every field: peers that verify signatures over the same bytes agree
      on the conversation, the auth mode, all keys and both session ids. */
  lemma TranscriptInjective(t: Transcript, u: Transcript)
    requires TranscriptFault(t).None? && TranscriptFault(u).None?
    requires TranscriptBytes(t) == TranscriptBytes(u)
    ensures t == u
  {
    TranscriptSlices(t, TranscriptBytes(t));
    TranscriptSlices(u, TranscriptBytes(u));
  }

  // ----- The hello message -----

  const HELLO_BYTES: int := 1 + PUBLIC_KEY_BYTES + PUBLIC_KEY_BYTES + SESSION_ID_BYTES

  datatype Hello = Hello(protocolVersion: int, identityPublicKey: Bytes, ephemeralPublicKey: Bytes, sessionId: Bytes)

  predicate HelloOk(onCurve: Bytes -> bool, h: Hello)
  {
    h.protocolVersion == PROTOCOL_VERSION && PublicKeyFault(onCurve, h.identityPublicKey).None?
    && PublicKeyFault(onCurve, h.ephemeralPublicKey).None? && |h.sessionId| == SESSION_ID_BYTES
  }

  function HelloMessage(h: Hello): Bytes
    requires 0 <= h.protocolVersion < 256
  {
    [h.protocolVersion] + h.identityPublicKey + h.ephemeralPublicKey + h.sessionId
  }

  method EncodeHello(h: Hello) returns (b: Bytes)
    requires 0 <= h.protocolVersion < 256 && |h.identityPublicKey| == |h.ephemeralPublicKey| == PUBLIC_KEY_BYTES
    requires |h.sessionId| == SESSION_ID_BYTES
    ensures b == HelloMessage(h)
  {
    var out := new byte[HELLO_BYTES](_ => 0);
    PutByte(out, 0, h.protocolVersion);
    SetBytes(out, 1, h.identityPublicKey);
    SetBytes(out, 1 + PUBLIC_KEY_BYTES, h.ephemeralPublicKey);
    SetBytes(out, 1 + PUBLIC_KEY_BYTES + PUBLIC_KEY_BYTES, h.sessionId);
    assert out[..] == out[..HELLO_BYTES];
    return out[..];
  }

  /** `decodeHello`: every fault is reported as a malformed handshake message. */
  function DecodeHello(onCurve: Bytes -> bool, b: Bytes): Result<Hello, ProtocolError>
  {
    if |b| != HELLO_BYTES then Err(Malformed)
    else if b[0] != PROTOCOL_VERSION then Err(Malformed)
    else if PublicKeyFault(onCurve, b[1..66]).Some? || PublicKeyFault(onCurve, b[66..131]).Some? then Err(Malformed)
    else Ok(Hello(b[0], b[1..66], b[66..131], b[131..]))
  }

  lemma HelloInverse(onCurve: Bytes -> bool, h: Hello, b: Bytes)
    ensures DecodeHello(onCurve, b) == Ok(h) <==> HelloOk(onCurve, h) && HelloMessage(h) == b
  {
    if HelloOk(onCurve, h) && HelloMessage(h) == b {
      assert b[1..66] == h.identityPublicKey && b[66..131] == h.ephemeralPublicKey && b[131..] == h.sessionId;
    }
    if DecodeHello(onCurve, b) == Ok(h) {
      assert b == [b[0]] + b[1..66] + b[66..131] + b[131..];
    }
  }

  // ----- Both sides build the same transcript -----

  function BuildTranscript(conversationId: Bytes, local: Hello, remote: Hello, authMode: int): Result<Transcript, ProtocolError>
  {
    match DeriveRole(local.identityPublicKey, remote.identityPublicKey)
    case Err(e) => Err(e)
    case Ok(role) =>
      var initiator := if role == Initiator then local else remote;
      var responder := if role == Initiator then remote else local;
      Ok(Transcript(TRANSCRIPT_VERSION, PROTOCOL_VERSION, conversationId, authMode,
                    initiator.identityPublicKey, responder.identityPublicKey,
                    initiator.ephemeralPublicKey, responder.ephemeralPublicKey,
                    initiator.sessionId, responder.sessionId))
  }

  /** From swapped hellos both peers build one transcript, which encodes; they fail together, and only
      when their identity keys are the same. */
  lemma SameTranscript(onCurve: Bytes -> bool, conversationId: Bytes, a: Hello, b: Hello, authMode: int)
    requires HelloOk(onCurve, a) && HelloOk(onCurve, b)
    requires |conversationId| == CONVERSATION_ID_BYTES && IsAuthMode(authMode)
    ensures BuildTranscript(conversationId, a, b, authMode) == BuildTranscript(conversationId, b, a, authMode)
    ensures var r := BuildTranscript(conversationId, a, b, authMode);
            if a.identityPublicKey == b.identityPublicKey then r == Err(RoleIndeterminable)
            else r.Ok? && TranscriptFault(r.value).None? && KeysValid(onCurve, r.value)
  {
    RolesOpposite(a.identityPublicKey, b.identityPublicKey);
  }

  /** Peers whose transcripts encode to the same bytes used the same two hellos, the same conversation
      and the same auth mode. */
  lemma AgreeOnHellos(onCurve: Bytes -> bool, c: Bytes, a: Hello, b: Hello, m: int, d: Bytes, x: Hello, y: Hello, n: int)
    requires HelloOk(onCurve, a) && HelloOk(onCurve, b) && HelloOk(onCurve, x) && HelloOk(onCurve, y)
    requires |c| == |d| == CONVERSATION_ID_BYTES && IsAuthMode(m) && IsAuthMode(n)
    requires a.identityPublicKey != b.identityPublicKey && x.identityPublicKey != y.identityPublicKey
    requires var t, u := BuildTranscript(c, a, b, m), BuildTranscript(d, x, y, n);
             t.Ok? && u.Ok? && TranscriptFault(t.value).None? && TranscriptFault(u.value).None?
             && TranscriptBytes(t.value) == TranscriptBytes(u.value)
    ensures c == d && m == n && ((a == x && b == y) || (a == y && b == x))
  {
    TranscriptInjective(BuildTranscript(c, a, b, m).value, BuildTranscript(d, x, y, n).value);
  }

  // ----- The key schedule -----

  datatype CryptoError = IdentityNotInTranscript | InvalidArgument | Protocol(error: ProtocolError)

  datatype SessionKeys = SessionKeys(sendKey: Bytes, recvKey: Bytes)

  /** The primitives: the public key of a private key, the 65-byte shared point of a private and a
      public key, SHA-256, and HKDF from secret, salt and info to a 32-byte key. */
  datatype Primitives = Primitives(
    public: Bytes -> Bytes,
    shared: (Bytes, Bytes) -> Bytes,
    sha256: Bytes -> Bytes,
    hkdf: (Bytes, Bytes, Bytes) -> Bytes)

  /** Diffie-Hellman: both sides compute one shared point, which is an encoded point. */
  ghost predicate Commutes(p: Primitives)
  {
    (forall a, b :: p.shared(a, p.public(b)) == p.shared(b, p.public(a)))
    && (forall a, b :: |p.shared(a, b)| == PUBLIC_KEY_BYTES)
  }

  /** UTF-8 of "fck-chat-v1/init->resp/traffic" and of "fck-chat-v1/resp->init/traffic". */
  const INIT_TO_RESP_LABEL: Bytes := [102, 99, 107, 45, 99, 104, 97, 116, 45, 118, 49, 47, 105, 110, 105, 116, 45, 62, 114, 101, 115, 112, 47, 116, 114, 97, 102, 102, 105, 99]
  const RESP_TO_INIT_LABEL: Bytes := [102, 99, 107, 45, 99, 104, 97, 116, 45, 118, 49, 47, 114, 101, 115, 112, 45, 62, 105, 110, 105, 116, 47, 116, 114, 97, 102, 102, 105, 99]

  function ResolvePeerIdentity(t: Transcript, local: Bytes): Result<Bytes, CryptoError>
  {
    if t.initiatorIdentityKey == local then Ok(t.responderIdentityKey)
    else if t.responderIdentityKey == local then Ok(t.initiatorIdentityKey)
    else Err(IdentityNotInTranscript)
  }

  /** Why no keys are derived, if so: the local identity is no party, or the transcript and the PAKE
      secret do not go together. */
  function ScheduleFault(t: Transcript, local: Bytes, pakeSecret: Option<Bytes>): Option<CryptoError>
  {
    var peer := ResolvePeerIdentity(t, local);
    if peer.Err? then Some(peer.error)
    else
      var role := DeriveRole(local, peer.value);
      if role.Err? then Some(if role.error == RoleIndeterminable then IdentityNotInTranscript else Protocol(role.error))
      else if (pakeSecret.None? && t.authMode == PAKE) || (pakeSecret.Some? && t.authMode != PAKE) then Some(InvalidArgument)
      else None
  }

  /** The key of one direction. It depends on what both sides share: the secret, the transcript, the
      PAKE secret and the label. */
  function TrafficKey(p: Primitives, secret: Bytes, t: Transcript, pakeSecret: Option<Bytes>, direction: Bytes): Bytes
    requires TranscriptFault(t).None?
  {
    p.hkdf(secret, p.sha256(TranscriptBytes(t)), direction + if pakeSecret.Some? then pakeSecret.value else [])
  }

  function Secret(p: Primitives, private: Bytes, peer: Bytes): Bytes
    requires |p.shared(private, peer)| == PUBLIC_KEY_BYTES
  {
    p.shared(private, peer)[1..33]
  }

  function KeysFor(p: Primitives, t: Transcript, local: Bytes, secret: Bytes, pakeSecret: Option<Bytes>): SessionKeys
    requires TranscriptFault(t).None? && ScheduleFault(t, local, pakeSecret).None?
  {
    var init := TrafficKey(p, secret, t, pakeSecret, INIT_TO_RESP_LABEL);
    var resp := TrafficKey(p, secret, t, pakeSecret, RESP_TO_INIT_LABEL);
    if DeriveRole(local, ResolvePeerIdentity(t, local).value) == Ok(Initiator) then SessionKeys(init, resp)
    else SessionKeys(resp, init)
  }

  /** `buildTrafficKeyInfo`. */
  method BuildTrafficKeyInfo(direction: Bytes, pakeSecret: Option<Bytes>) returns (info: array<byte>)
    ensures fresh(info) && info[..] == direction + if pakeSecret.Some? then pakeSecret.value else []
  {
    if pakeSecret.None? {
      info := new byte[|direction|](_ => 0);
      SetBytes(info, 0, direction);
      assert info[..] == info[..|direction|];
      return;
    }
    info := new byte[|direction| + |pakeSecret.value|](_ => 0);
    SetBytes(info, 0, direction);
    assert info[..|direction|] == direction;
    SetBytes(info, |direction|, pakeSecret.value);
    assert info[..] == info[..|direction| + |pakeSecret.value|];
  }

  /** `deriveSessionKeys`. The buffers of the secret, the two infos and the two raw keys are wiped, each
      after its last use; they are returned for that claim alone. */
  method DeriveSessionKeys(p: Primitives, t: Transcript, localIdentity: Bytes, localPrivate: Bytes, peerPublic: Bytes,
                           pakeSecret: Option<Bytes>)
    returns (r: Result<SessionKeys, CryptoError>, ghost wiped: seq<array<byte>>)
    requires TranscriptFault(t).None? && |p.shared(localPrivate, peerPublic)| == PUBLIC_KEY_BYTES
    ensures ScheduleFault(t, localIdentity, pakeSecret).Some? ==> r == Err(ScheduleFault(t, localIdentity, pakeSecret).value)
    ensures ScheduleFault(t, localIdentity, pakeSecret).None? ==>
              r == Ok(KeysFor(p, t, localIdentity, Secret(p, localPrivate, peerPublic), pakeSecret))
    ensures r.Ok? ==> |wiped| == 5 && forall k, i :: 0 <= k < |wiped| && 0 <= i < wiped[k].Length ==> wiped[k][i] == 0
  {
    wiped := [];
    var peer := ResolvePeerIdentity(t, localIdentity);
    if peer.Err? {
      return Err(peer.error), wiped;
    }
    var role := DeriveRole(localIdentity, peer.value);
    if role.Err? {
      return Err(if role.error == RoleIndeterminable then IdentityNotInTranscript else Protocol(role.error)), wiped;
    }
    var sharedPoint := NewBuffer(p.shared(localPrivate, peerPublic));
    if pakeSecret.None? && t.authMode == PAKE {
      return Err(InvalidArgument), wiped;
    }
    if pakeSecret.Some? && t.authMode != PAKE {
      return Err(InvalidArgument), wiped;
    }
    var encoded := EncodeTranscript(t);
    var salt := p.sha256(encoded.value);
    var initInfo := BuildTrafficKeyInfo(INIT_TO_RESP_LABEL, pakeSecret);
    var respInfo := BuildTrafficKeyInfo(RESP_TO_INIT_LABEL, pakeSecret);
    assert sharedPoint[1..33] == sharedPoint[..][1..33];
    var initKeyBytes := NewBuffer(p.hkdf(sharedPoint[1..33], salt, initInfo[..]));
    var respKeyBytes := NewBuffer(p.hkdf(sharedPoint[1..33], salt, respInfo[..]));
    var initKey, respKey := initKeyBytes[..], respKeyBytes[..];
    Zeroize(initInfo);
    Zeroize(respInfo);
    Zeroize(initKeyBytes);
    Zeroize(respKeyBytes);
    Zeroize(sharedPoint);
    wiped := [initInfo, respInfo, initKeyBytes, respKeyBytes, sharedPoint];
    return Ok(if role.value == Initiator then SessionKeys(initKey, respKey) else SessionKeys(respKey, initKey)), wiped;
  }

  /** Handshake agreement. From swapped hellos with the ephemeral keys of private keys `x` and `y`, and
      with one PAKE secret or none, both sides derive keys or neither does, and each side's send key
      is the other's receive key. */
  lemma KeysMatch(p: Primitives, onCurve: Bytes -> bool, conversationId: Bytes, a: Hello, b: Hello, authMode: int,
                  x: Bytes, y: Bytes, pakeSecret: Option<Bytes>)
    requires Commutes(p) && HelloOk(onCurve, a) && HelloOk(onCurve, b)
    requires |conversationId| == CONVERSATION_ID_BYTES && IsAuthMode(authMode)
    requires a.ephemeralPublicKey == p.public(x) && b.ephemeralPublicKey == p.public(y)
    requires a.identityPublicKey != b.identityPublicKey
    ensures var t, u := BuildTranscript(conversationId, a, b, authMode), BuildTranscript(conversationId, b, a, authMode);
            t.Ok? && u == t && TranscriptFault(t.value).None?
            && ScheduleFault(t.value, a.identityPublicKey, pakeSecret) == ScheduleFault(t.value, b.identityPublicKey, pakeSecret)
            && (ScheduleFault(t.value, a.identityPublicKey, pakeSecret).None? <==> (pakeSecret.Some? <==> authMode == PAKE))
    ensures (pakeSecret.Some? <==> authMode == PAKE) ==>
              var t := BuildTranscript(conversationId, a, b, authMode).value;
              var ka := KeysFor(p, t, a.identityPublicKey, Secret(p, x, b.ephemeralPublicKey), pakeSecret);
              var kb := KeysFor(p, t, b.identityPublicKey, Secret(p, y, a.ephemeralPublicKey), pakeSecret);
              ka.sendKey == kb.recvKey && ka.recvKey == kb.sendKey
  {
    SameTranscript(onCurve, conversationId, a, b, authMode);
    RolesOpposite(a.identityPublicKey, b.identityPublicKey);
    assert p.shared(x, b.ephemeralPublicKey) == p.shared(y, a.ephemeralPublicKey);
  }
}
