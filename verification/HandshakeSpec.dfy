/** The handshake of one conversation as a step machine on values (`orchestrator/orchestrator.ts`):
    attaches, teardowns and retries against coroutines that stay parked across them. The class that
    carries out these steps is in Handshake.dfy. */
module HandshakeSpec {
  import opened Bytes
  import opened HandshakeCodec
  import Codec

  const MAX_GROUP_LINK_PARKED_MESSAGES: int := 64
  const SIGNATURE_MESSAGE_BYTES: int := 1 + Codec.SIGNATURE_BYTES
  const PAKE_MESSAGE_BYTES: int := 35
  const PAKE_CONFIRM_MESSAGE_BYTES: int := 34

  datatype Phase = Waiting | Signaling | Handshaking | Verifying | Connected | Disconnected

  /** The transition table; moves to the same state are skipped before it is consulted. */
  predicate Legal(a: Phase, b: Phase)
  {
    match a
    case Waiting => b == Signaling || b == Handshaking || b == Disconnected
    case Signaling => b == Handshaking || b == Waiting || b == Disconnected
    case Handshaking => b == Verifying || b == Disconnected
    case Verifying => b == Connected || b == Disconnected
    case Connected => b == Disconnected
    case Disconnected => b == Signaling
  }

  /** What the orchestrator is built with: the primitives, the curve test, signature verification over
      transcript bytes, its own identity key, the auth mode, and whether it serves a group link. */
  datatype Config = Config(
    p: Primitives,
    onCurve: Bytes -> bool,
    verify: (Bytes, Bytes, Bytes) -> bool,
    self: Bytes,
    authMode: int,
    groupLink: bool)

  predicate ConfigOk(c: Config)
  {
    Codec.PublicKeyFault(c.onCurve, c.self).None? && IsAuthMode(c.authMode)
  }

  datatype Ephemeral = Ephemeral(private: Bytes, public: Bytes)

  /** Where a `verifyPeerAndComplete` call is suspended. `known` says whether the store already held
      this peer's key. */
  datatype Stage =
    | CheckingSignature(signature: Bytes)
    | LookingUp
    | Exchanging(known: bool)
    | Deriving(known: bool, keys: SessionKeys)
    | Numbering(known: bool, keys: SessionKeys)
    | Storing(keys: SessionKeys)

  /** A `signTranscript` and a `verifyPeerAndComplete` call, a resolution of a group link's conversation,
      all suspended; each remembers the attach it was started under. */
  datatype Sign = Sign(gen: nat, transcript: Transcript)
  datatype Completion = Completion(gen: nat, transcript: Transcript, stage: Stage)
  datatype Resolution = Resolution(gen: nat, hello: Bytes, round: nat)

  /** A rejection on its way to `failHandshake`: the attach it arose under, and whether it is an
      authentication failure. */
  datatype Rejection = Rejection(gen: nat, authFailure: bool)

  /** The suspended coroutines by kind; `keygens` maps to the attach. */
  datatype Tasks = Tasks(
    keygens: map<nat, nat>,
    signs: map<nat, Sign>,
    completions: map<nat, Completion>,
    resolutions: map<nat, Resolution>,
    throwing: map<nat, Rejection>,
    next: nat)

  /** A sender and a receiver were wired: under which attach, on which transport, with what. */
  datatype Wiring = Wiring(
    gen: nat,
    transport: int,
    transcript: Transcript,
    localSessionId: Bytes,
    peerSessionId: Bytes,
    keys: SessionKeys)

  datatype SentSignature = SentSignature(gen: nat, transport: int, transcript: Transcript)

  /** The fields of one handshake, all reset by a teardown. */
  datatype Exchange = Exchange(
    ephemeral: Option<Ephemeral>,
    localHello: Option<Hello>,
    remoteHello: Option<Hello>,
    transcript: Option<Transcript>,
    signatureSent: bool,
    completing: bool)

  const NOTHING: Exchange := Exchange(None, None, None, None, false, false)

  /** The whole-handshake timer, the group link's resolution latch, the messages parked behind it, and
      the frames that came early. */
  datatype Aside = Aside(timer: bool, resolving: bool, parked: seq<Bytes>, early: seq<Bytes>)

  const CLEAR: Aside := Aside(false, false, [], [])

  /** History: for each attach its transport, the key pair and hello made for it, the peer's hello
      accepted in it and what the store answered when asked for the peer's key; which attaches were torn
      down; every wiring and every signature sent. */
  datatype Past = Past(
    attaches: map<nat, int>,
    pairs: map<nat, Ephemeral>,
    hellos: map<nat, Hello>,
    accepted: map<nat, Hello>,
    lookups: map<nat, Option<Bytes>>,
    torn: set<nat>,
    wired: seq<Wiring>,
    sent: seq<SentSignature>)

  datatype Session = Session(
    phase: Phase,
    generation: nat,
    conversation: Option<Bytes>,
    transport: Option<int>,
    failed: bool,
    authFailed: bool,
    x: Exchange,
    aside: Aside,
    framing: Option<Wiring>,
    tasks: Tasks,
    past: Past)

  function Started(conversation: Option<Bytes>): Session
  {
    Session(Waiting, 0, conversation, None, false, false, NOTHING, CLEAR, None,
            Tasks(map[], map[], map[], map[], map[], 0), Past(map[], map[], map[], map[], map[], {}, [], []))
  }

  /** `handshakeSuperseded`. */
  predicate Superseded(s: Session, gen: nat)
  {
    gen != s.generation || s.transport.None? || s.x.ephemeral.None?
  }

  // ----- Small steps -----

  /** A coroutine failed: its rejection is on its way. */
  function Thrown(t: Tasks, gen: nat, authFailure: bool): Tasks
  {
    t.(throwing := t.throwing[t.next := Rejection(gen, authFailure)], next := t.next + 1)
  }

  function Throw(s: Session, gen: nat, authFailure: bool): Session
  {
    s.(tasks := Thrown(s.tasks, gen, authFailure))
  }

  /** A completion ends, by returning or by throwing. */
  function Bail(s: Session, h: nat): Session
  {
    s.(tasks := s.tasks.(completions := s.tasks.completions - {h}))
  }

  /** `teardownSession`. */
  function Teardown(s: Session): Session
  {
    s.(framing := None, transport := None, x := NOTHING, aside := CLEAR,
       past := s.past.(torn := s.past.torn + {s.generation}))
  }

  /** Leave, the peer leaving, or the signaling socket closing. */
  function Drop(s: Session): Session
  {
    if s.phase == Disconnected then s else Teardown(s).(phase := Disconnected)
  }

  /** `failHandshake`. */
  function Fail(s: Session, authFailure: bool): Session
  {
    if s.failed then s
    else
      Teardown(s).(failed := true, authFailed := s.authFailed || authFailure,
                   phase := if s.phase in {Handshaking, Verifying, Connected} then Disconnected else s.phase)
  }

  function Attach(c: Config, s: Session, transport: int): Session
  {
    if (s.phase != Waiting && s.phase != Signaling) || (s.conversation.None? && !c.groupLink) then s
    else
      var g := s.generation + 1;
      s.(generation := g, failed := false, transport := Some(transport), phase := Handshaking, aside := s.aside.(timer := true),
         past := s.past.(attaches := s.past.attaches[g := transport]),
         tasks := s.tasks.(keygens := s.tasks.keygens[s.tasks.next := g], next := s.tasks.next + 1))
  }

  /** `maybeSignAndSend` up to the signature. */
  function MaybeSign(c: Config, s: Session): Session
  {
    if s.x.signatureSent || s.x.localHello.None? || s.x.remoteHello.None? || s.conversation.None? then s
    else
      match BuildTranscript(s.conversation.value, s.x.localHello.value, s.x.remoteHello.value, c.authMode)
      case Err(_) => Throw(s, s.generation, false)
      case Ok(t) => StartSigning(s, t)
  }

  function StartSigning(s: Session, t: Transcript): Session
  {
    s.(x := s.x.(transcript := Some(t)),
       tasks := s.tasks.(signs := s.tasks.signs[s.tasks.next := Sign(s.generation, t)], next := s.tasks.next + 1))
  }

  function KeygenDone(c: Config, s: Session, h: nat, private: Bytes, sessionId: Bytes): Session
    requires h in s.tasks.keygens
  {
    var ended := s.(tasks := s.tasks.(keygens := s.tasks.keygens - {h}));
    if s.tasks.keygens[h] != s.generation || s.transport.None? then ended
    else MaybeSign(c, Introduced(c, ended, private, sessionId))
  }

  /** The local key pair and hello are made, and the hello is sent. */
  function Introduced(c: Config, s: Session, private: Bytes, sessionId: Bytes): Session
  {
    var pair := Ephemeral(private, c.p.public(private));
    var hello := Hello(Codec.PROTOCOL_VERSION, c.self, pair.public, sessionId);
    s.(x := s.x.(ephemeral := Some(pair), localHello := Some(hello)),
       past := s.past.(pairs := s.past.pairs[s.generation := pair], hellos := s.past.hellos[s.generation := hello]))
  }

  function SignDone(s: Session, h: nat): Session
    requires h in s.tasks.signs
  {
    var t := s.tasks.signs[h];
    var ended := s.(tasks := s.tasks.(signs := s.tasks.signs - {h}));
    if Superseded(s, t.gen) || s.x.signatureSent then ended
    else Sent(ended, SentSignature(t.gen, s.transport.value, t.transcript))
  }

  function Sent(s: Session, e: SentSignature): Session
  {
    s.(x := s.x.(signatureSent := true), past := s.past.(sent := s.past.sent + [e]))
  }

  function PeerIdentity(c: Config, t: Transcript): Bytes
  {
    if c.self == t.initiatorIdentityKey then t.responderIdentityKey else t.initiatorIdentityKey
  }

  function PeerEphemeral(c: Config, t: Transcript): Bytes
  {
    if c.self == t.initiatorIdentityKey then t.responderEphemeralKey else t.initiatorEphemeralKey
  }

  function PeerSession(c: Config, t: Transcript): Bytes
  {
    if c.self == t.initiatorIdentityKey then t.responderSessionId else t.initiatorSessionId
  }

  /** `verifyPeerAndComplete` up to the signature check. The latch is set before anything is looked at. */
  function VerifyPeer(s: Session, signature: Bytes): Session
  {
    if s.x.completing then s
    else if s.x.localHello.None? || s.x.remoteHello.None? || s.x.transcript.None? || s.conversation.None?
      || s.x.ephemeral.None? || s.transport.None?
    then Throw(Latched(s), s.generation, false)
    else Checking(Latched(s), Completion(s.generation, s.x.transcript.value, CheckingSignature(signature)))
  }

  function Latched(s: Session): Session
  {
    s.(x := s.x.(completing := true))
  }

  function Checking(s: Session, t: Completion): Session
  {
    s.(tasks := s.tasks.(completions := s.tasks.completions[s.tasks.next := t], next := s.tasks.next + 1))
  }

  function AcceptHello(s: Session, gen: nat, hello: Hello): Session
  {
    s.(x := s.x.(remoteHello := Some(hello)), past := s.past.(accepted := s.past.accepted[gen := hello]))
  }

  /** `dispatchHandshakeMessage`. What happens to PAKE messages is not modelled, but that they may be
      refused: `rejects` says for which bytes. */
  function Dispatch(c: Config, s: Session, bytes: Bytes, gen: nat, rejects: Bytes -> bool): Session
  {
    if |bytes| == HELLO_BYTES then
      if s.x.remoteHello.Some? then Throw(s, gen, false)
      else
        match DecodeHello(c.onCurve, bytes)
        case Err(_) => Throw(s, gen, false)
        case Ok(hello) => if gen != s.generation then s else MaybeSign(c, AcceptHello(s, gen, hello))
    else if |bytes| == SIGNATURE_MESSAGE_BYTES then
      if bytes[0] != Codec.PROTOCOL_VERSION then Throw(s, gen, false)
      else if gen != s.generation then s
      else VerifyPeer(s, bytes[1..])
    else if |bytes| == PAKE_MESSAGE_BYTES || |bytes| == PAKE_CONFIRM_MESSAGE_BYTES then
      if rejects(bytes) then Throw(s, gen, true) else s
    else if c.groupLink && |s.aside.early| < MAX_GROUP_LINK_PARKED_MESSAGES then
      s.(aside := s.aside.(early := s.aside.early + [bytes]))
    else Throw(s, gen, false)
  }

  /** `handleInbound`. Once connected the bytes go to the receiver, which may refuse them. */
  function Inbound(c: Config, s: Session, bytes: Bytes, rejects: Bytes -> bool): Session
  {
    if s.phase == Connected then (if rejects(bytes) then Throw(s, s.generation, false) else s)
    else if s.phase != Handshaking && s.phase != Verifying then s
    else if s.aside.resolving then
      if |s.aside.parked| >= MAX_GROUP_LINK_PARKED_MESSAGES then Throw(s, s.generation, false)
      else s.(aside := s.aside.(parked := s.aside.parked + [bytes]))
    else if s.conversation.None? then StartResolving(c, s, bytes)
    else Dispatch(c, s, bytes, s.generation, rejects)
  }

  function StartResolving(c: Config, s: Session, bytes: Bytes): Session
  {
    if !c.groupLink || |bytes| != HELLO_BYTES || DecodeHello(c.onCurve, bytes).Err? then Throw(s, s.generation, false)
    else s.(aside := s.aside.(resolving := true),
            tasks := s.tasks.(resolutions := s.tasks.resolutions[s.tasks.next := Resolution(s.generation, bytes, 0)],
                              next := s.tasks.next + 1))
  }

  /** The messages parked behind a resolution, dispatched in arrival order. */
  function Replay(c: Config, s: Session, gen: nat, messages: seq<Bytes>, rejects: Bytes -> bool): Session
    decreases |messages|
  {
    if messages == [] || gen != s.generation || s.transport.None? then s
    else Replay(c, Dispatch(c, s, messages[0], gen, rejects), gen, messages[1..], rejects)
  }

  /** The `finally` of the resolution. */
  function Resolved(s: Session, h: nat, gen: nat): Session
  {
    s.(tasks := s.tasks.(resolutions := s.tasks.resolutions - {h}),
       aside := if gen == s.generation then s.aside.(resolving := false, parked := []) else s.aside)
  }

  /** One await of `resolveGroupLinkConversation` returns: the id, the stored conversation, then the
      durable flag, after which the waiting messages are dispatched. */
  function ResolveStep(c: Config, s: Session, h: nat, id: Bytes, flag: bool, rejects: Bytes -> bool): Session
    requires h in s.tasks.resolutions
  {
    var t := s.tasks.resolutions[h];
    var moved := s.tasks.(resolutions := s.tasks.resolutions[h := t.(round := t.round + 1)]);
    if t.gen != s.generation || s.transport.None? then Resolved(s, h, t.gen)
    else if t.round == 0 then s.(conversation := Some(id), tasks := moved)
    else if t.round == 1 then s.(tasks := moved)
    else Release(c, s.(authFailed := flag, tasks := s.tasks.(resolutions := s.tasks.resolutions - {h})), h, t, rejects)
  }

  function Release(c: Config, s: Session, h: nat, t: Resolution, rejects: Bytes -> bool): Session
  {
    Resolved(Replay(c, Dispatch(c, s, t.hello, t.gen, rejects), t.gen, s.aside.parked, rejects), h, t.gen)
  }

  function At(s: Session, h: nat, stage: Stage): Session
    requires h in s.tasks.completions
  {
    s.(tasks := s.tasks.(completions := s.tasks.completions[h := s.tasks.completions[h].(stage := stage)]))
  }

  function VerifyDone(c: Config, s: Session, h: nat): Session
    requires Completes(s, h) && s.tasks.completions[h].stage.CheckingSignature?
  {
    var t := s.tasks.completions[h];
    if Superseded(s, t.gen) then Bail(s, h)
    else if TranscriptFault(t.transcript).Some?
      || !c.verify(PeerIdentity(c, t.transcript), t.stage.signature, TranscriptBytes(t.transcript))
    then Throw(Bail(s, h), t.gen, false)
    else At(s, h, LookingUp).(phase := Verifying)
  }

  /** `deriveSessionKeys` is called with the fields as they are now. */
  function Derive(c: Config, s: Session, h: nat, known: bool, secret: Option<Bytes>): Session
    requires Completes(s, h) && !Superseded(s, s.tasks.completions[h].gen)
  {
    var t := s.tasks.completions[h];
    var peer := PeerEphemeral(c, t.transcript);
    if s.x.transcript.None? || TranscriptFault(s.x.transcript.value).Some? || ScheduleFault(s.x.transcript.value, c.self, secret).Some?
      || |c.p.shared(s.x.ephemeral.value.private, peer)| != Codec.PUBLIC_KEY_BYTES
    then Throw(Bail(s, h), t.gen, false)
    else
      At(s, h, Deriving(known, KeysFor(c.p, s.x.transcript.value, c.self, Secret(c.p, s.x.ephemeral.value.private, peer), secret)))
  }

  /** What the store answered, as history. */
  function Noted(s: Session, gen: nat, existing: Option<Bytes>): Session
  {
    s.(past := s.past.(lookups := s.past.lookups[gen := existing]))
  }

  /** The stored peer key is there: it must be this peer's. A PAKE session then runs its exchange. */
  function LookupDone(c: Config, s: Session, h: nat, existing: Option<Bytes>): Session
    requires Completes(s, h) && s.tasks.completions[h].stage.LookingUp?
  {
    var t := s.tasks.completions[h];
    if Superseded(s, t.gen) then Bail(s, h)
    else if existing.Some? && existing.value != PeerIdentity(c, t.transcript) then Throw(Noted(Bail(s, h), t.gen, existing), t.gen, true)
    else
      var n := At(Noted(s, t.gen, existing), h, Exchanging(existing.Some?));
      if c.authMode == Codec.PAKE then n else Derive(c, n, h, existing.Some?, None)
  }

  /** One await of the PAKE exchange returns: another follows, or the confirmed secret is there. */
  function ExchangeStep(c: Config, s: Session, h: nat, secret: Option<Bytes>): Session
    requires Completes(s, h) && s.tasks.completions[h].stage.Exchanging?
  {
    if Superseded(s, s.tasks.completions[h].gen) then Bail(s, h)
    else if secret.None? then s
    else Derive(c, s, h, s.tasks.completions[h].stage.known, secret)
  }

  function DeriveDone(s: Session, h: nat): Session
    requires Completes(s, h) && s.tasks.completions[h].stage.Deriving?
  {
    var t := s.tasks.completions[h];
    if Superseded(s, t.gen) then Bail(s, h) else At(s, h, Numbering(t.stage.known, t.stage.keys))
  }

  function NumberDone(c: Config, s: Session, h: nat): Session
    requires Completes(s, h) && s.tasks.completions[h].stage.Numbering?
  {
    var t := s.tasks.completions[h];
    if Superseded(s, t.gen) then Bail(s, h)
    else if t.stage.known then Wire(c, s, h, t.stage.keys)
    else At(s, h, Storing(t.stage.keys))
  }

  function StoreDone(c: Config, s: Session, h: nat): Session
    requires Completes(s, h) && s.tasks.completions[h].stage.Storing?
  {
    var t := s.tasks.completions[h];
    if Superseded(s, t.gen) then Bail(s, h) else Wire(c, s, h, t.stage.keys)
  }

  /** The sender and the receiver are built from the fields as they are now. */
  function Wire(c: Config, s: Session, h: nat, keys: SessionKeys): Session
    requires Completes(s, h) && !Superseded(s, s.tasks.completions[h].gen)
  {
    var t := s.tasks.completions[h];
    if s.x.localHello.None? then Throw(Bail(s, h), t.gen, false)
    else
      var w := Wiring(t.gen, s.transport.value, t.transcript, s.x.localHello.value.sessionId, PeerSession(c, t.transcript), keys);
      Framed(Bail(s, h), w)
  }

  function Framed(s: Session, w: Wiring): Session
  {
    s.(framing := Some(w), past := s.past.(wired := s.past.wired + [w]), aside := s.aside.(timer := false, early := []),
       phase := Connected)
  }

  datatype Event =
    | PeerJoins
    | Attaches(transport: int)
    | KeygenResumes(task: nat, private: Bytes, sessionId: Bytes)
    | Receives(bytes: Bytes, rejects: Bytes -> bool)
    | SignResumes(task: nat)
    | VerifyResumes(task: nat)
    | LookupResumes(task: nat, existing: Option<Bytes>)
    | ExchangeResumes(task: nat, secret: Option<Bytes>)
    | DeriveResumes(task: nat)
    | NumberResumes(task: nat)
    | StoreResumes(task: nat)
    | ResolveResumes(task: nat, id: Bytes, flag: bool, rejects: Bytes -> bool)
    | KeygenRejects(task: nat)
    | SignRejects(task: nat)
    | CompletionRejects(task: nat, authFailure: bool)
    | ResolutionRejects(task: nat)
    | Delivered(task: nat)
    | TimesOut
    | Drops
    | Retries

  predicate Completes(s: Session, h: nat) { h in s.tasks.completions }

  predicate Enabled(c: Config, s: Session, e: Event)
  {
    match e
    case KeygenResumes(h, private, sessionId) =>
      h in s.tasks.keygens && |sessionId| == Codec.SESSION_ID_BYTES
      && Codec.PublicKeyFault(c.onCurve, c.p.public(private)).None?
    case SignResumes(h) => h in s.tasks.signs
    case VerifyResumes(h) => Completes(s, h) && s.tasks.completions[h].stage.CheckingSignature?
    case LookupResumes(h, _) => Completes(s, h) && s.tasks.completions[h].stage.LookingUp?
    case ExchangeResumes(h, _) => Completes(s, h) && s.tasks.completions[h].stage.Exchanging?
    case DeriveResumes(h) => Completes(s, h) && s.tasks.completions[h].stage.Deriving?
    case NumberResumes(h) => Completes(s, h) && s.tasks.completions[h].stage.Numbering?
    case StoreResumes(h) => Completes(s, h) && s.tasks.completions[h].stage.Storing?
    case ResolveResumes(h, id, _, _) => h in s.tasks.resolutions && |id| == Codec.CONVERSATION_ID_BYTES
    case KeygenRejects(h) => h in s.tasks.keygens
    case SignRejects(h) => h in s.tasks.signs
    case CompletionRejects(h, _) => Completes(s, h)
    case ResolutionRejects(h) => h in s.tasks.resolutions
    case Delivered(h) => h in s.tasks.throwing
    case TimesOut => s.aside.timer
    case _ => true
  }

  function Next(c: Config, s: Session, e: Event): Session
    requires Enabled(c, s, e)
  {
    match e
    case PeerJoins => if s.phase == Waiting then s.(phase := Signaling) else s
    case Attaches(transport) => Attach(c, s, transport)
    case KeygenResumes(h, private, sessionId) => KeygenDone(c, s, h, private, sessionId)
    case Receives(bytes, rejects) => Inbound(c, s, bytes, rejects)
    case SignResumes(h) => SignDone(s, h)
    case VerifyResumes(h) => VerifyDone(c, s, h)
    case LookupResumes(h, existing) => LookupDone(c, s, h, existing)
    case ExchangeResumes(h, secret) => ExchangeStep(c, s, h, secret)
    case DeriveResumes(h) => DeriveDone(s, h)
    case NumberResumes(h) => NumberDone(c, s, h)
    case StoreResumes(h) => StoreDone(c, s, h)
    case ResolveResumes(h, id, flag, rejects) => ResolveStep(c, s, h, id, flag, rejects)
    case KeygenRejects(h) => Throw(s.(tasks := s.tasks.(keygens := s.tasks.keygens - {h})), s.tasks.keygens[h], false)
    case SignRejects(h) => Throw(s.(tasks := s.tasks.(signs := s.tasks.signs - {h})), s.tasks.signs[h].gen, false)
    case CompletionRejects(h, authFailure) => Throw(Bail(s, h), s.tasks.completions[h].gen, authFailure)
    case ResolutionRejects(h) => Throw(Resolved(s, h, s.tasks.resolutions[h].gen), s.tasks.resolutions[h].gen, false)
    case Delivered(h) => Fail(s.(tasks := s.tasks.(throwing := s.tasks.throwing - {h})), s.tasks.throwing[h].authFailure)
    case TimesOut => Fail(s.(aside := s.aside.(timer := false)), false)
    case Drops => Drop(s)
    case Retries =>
      if s.phase != Disconnected || s.conversation.None? || s.authFailed then s else s.(phase := Signaling)
  }
}
