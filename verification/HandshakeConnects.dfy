/** That an attach nobody disturbs ends connected, whatever the order of its awaits and messages
    (`orchestrator/orchestrator.ts`), and that two such attaches with swapped hellos meet. */
module HandshakeConnects {
  import opened Bytes
  import opened HandshakeCodec
  import opened HandshakeSpec
  import opened HandshakeRuns
  import Codec

  // ----- What an attach meets -----

  /** The attach and its transport, what its key generation will answer, the peer's hello and signature, what
      the store knows of the peer, and the PAKE secret if there is one; `sent` and `wired` are on record
      from earlier attaches. */
  datatype Course = Course(
    gen: nat,
    conversation: Bytes,
    transport: int,
    private: Bytes,
    sessionId: Bytes,
    remote: Hello,
    signature: Bytes,
    stored: Option<Bytes>,
    secret: Option<Bytes>,
    sent: seq<SentSignature>,
    wired: seq<Wiring>)

  function Own(c: Config, u: Course): Hello
  {
    Hello(Codec.PROTOCOL_VERSION, c.self, c.p.public(u.private), u.sessionId)
  }

  function Built(c: Config, u: Course): Result<Transcript, Codec.ProtocolError>
  {
    BuildTranscript(u.conversation, Own(c, u), u.remote, c.authMode)
  }

  /** A fair peer: its hello is valid and of another identity, its signature verifies over the transcript of
      the two hellos, the store knows nothing else of it, and a PAKE ends in a secret. */
  ghost predicate Fair(c: Config, u: Course)
  {
    ConfigOk(c) && |u.conversation| == Codec.CONVERSATION_ID_BYTES
    && HelloOk(c.onCurve, Own(c, u)) && HelloOk(c.onCurve, u.remote) && u.remote.identityPublicKey != c.self
    && |c.p.shared(u.private, u.remote.ephemeralPublicKey)| == Codec.PUBLIC_KEY_BYTES
    && (u.stored.Some? ==> u.stored.value == u.remote.identityPublicKey) && (u.secret.Some? <==> c.authMode == Codec.PAKE)
    && |u.signature| == Codec.SIGNATURE_BYTES
    && forall t :: Built(c, u) == Ok(t) && TranscriptFault(t).None? ==>
         c.verify(u.remote.identityPublicKey, u.signature, TranscriptBytes(t))
  }

  /** The transcript of the two hellos is there, and the fields of the peer are those of its hello. */
  predicate Sound(c: Config, u: Course)
  {
    u.remote.protocolVersion == Codec.PROTOCOL_VERSION && Built(c, u).Ok?
    && var t := Built(c, u).value;
       TranscriptFault(t).None? && ScheduleFault(t, c.self, u.secret).None?
       && PeerIdentity(c, t) == u.remote.identityPublicKey && PeerEphemeral(c, t) == u.remote.ephemeralPublicKey
       && PeerSession(c, t) == u.remote.sessionId
       && |c.p.shared(u.private, u.remote.ephemeralPublicKey)| == Codec.PUBLIC_KEY_BYTES
  }

  lemma FairSound(c: Config, u: Course)
    requires Fair(c, u)
    ensures Sound(c, u)
  {
    SameTranscript(c.onCurve, u.conversation, Own(c, u), u.remote, c.authMode);
    Codec.RolesOpposite(c.self, u.remote.identityPublicKey);
  }

  function Agreed(c: Config, u: Course): Transcript
    requires Sound(c, u)
  {
    Built(c, u).value
  }

  function Keys(c: Config, u: Course): SessionKeys
    requires Sound(c, u)
  {
    KeysFor(c.p, Agreed(c, u), c.self, Secret(c.p, u.private, u.remote.ephemeralPublicKey), u.secret)
  }

  /** The wiring the attach is to end with. */
  function Due(c: Config, u: Course): Wiring
    requires Sound(c, u)
  {
    Wiring(u.gen, u.transport, Agreed(c, u), u.sessionId, u.remote.sessionId, Keys(c, u))
  }

  function SignatureMessage(u: Course): Bytes
  {
    [Codec.PROTOCOL_VERSION] + u.signature
  }

  // ----- Undisturbed steps -----

  predicate Keyed(s: Session) { s.x.localHello.Some? }
  predicate Heard(s: Session) { s.x.remoteHello.Some? }

  /** The peer's signature has arrived, if only to wait for the conversation id. */
  predicate Told(s: Session) { s.x.completing || s.aside.parked != [] }

  /** A step of the attach itself: an await of its own returns with what it is due, or one of the peer's two
      messages arrives, each once, and the signature after the hellos were exchanged. */
  predicate Undisturbed(c: Config, u: Course, s: Session, e: Event)
    requires u.remote.protocolVersion == Codec.PROTOCOL_VERSION
  {
    Enabled(c, s, e)
    && match e
       case KeygenResumes(_, private, sessionId) => private == u.private && sessionId == u.sessionId
       case Receives(bytes, _) =>
         (bytes == HelloMessage(u.remote) && !Heard(s) && !s.aside.resolving)
         || (bytes == SignatureMessage(u) && Keyed(s) && (Heard(s) || s.aside.resolving) && !Told(s))
       case ResolveResumes(_, id, _, _) => id == u.conversation
       case LookupResumes(_, existing) => existing == u.stored
       case ExchangeResumes(_, secret) => secret == u.secret
       case SignResumes(_) => true
       case VerifyResumes(_) => true
       case DeriveResumes(_) => true
       case NumberResumes(_) => true
       case StoreResumes(_) => true
       case _ => false
  }

  // ----- What every undisturbed step keeps -----

  predicate Pending<V>(m: map<nat, V>)
  {
    exists h :: h in m
  }

  /** Exactly one task, and it is `v`. */
  predicate Just<V(==)>(m: map<nat, V>, v: V)
  {
    Pending(m) && forall h :: h in m ==> m == map[h := v]
  }

  predicate Attaching(c: Config, u: Course, s: Session)
  {
    s.generation == u.gen && s.transport == Some(u.transport) && s.tasks.throwing == map[]
    && (s.conversation == Some(u.conversation) || (s.conversation.None? && c.groupLink && !Heard(s)))
  }

  predicate Introducing(c: Config, u: Course, s: Session)
    requires Sound(c, u)
  {
    s.x.ephemeral == (if Keyed(s) then Some(Ephemeral(u.private, c.p.public(u.private))) else None)
    && s.x.localHello == (if Keyed(s) then Some(Own(c, u)) else None)
    && s.x.remoteHello == (if Heard(s) then Some(u.remote) else None)
    && s.x.transcript == (if Keyed(s) && Heard(s) then Some(Agreed(c, u)) else None)
    && if Keyed(s) then s.tasks.keygens == map[] else Just(s.tasks.keygens, u.gen)
  }

  /** The conversation id of a group link is being resolved, with the hello and perhaps the signature waiting. */
  predicate Asking(c: Config, u: Course, s: Session)
    requires Sound(c, u)
  {
    if s.aside.resolving then
      !Heard(s) && Pending(s.tasks.resolutions) && (s.aside.parked == [] || (s.aside.parked == [SignatureMessage(u)] && Keyed(s)))
      && forall h :: h in s.tasks.resolutions ==>
           s.tasks.resolutions == map[h := Resolution(u.gen, HelloMessage(u.remote), s.tasks.resolutions[h].round)]
           && s.tasks.resolutions[h].round <= 2 && (s.tasks.resolutions[h].round == 0 <==> s.conversation.None?)
    else s.tasks.resolutions == map[] && s.aside.parked == []
  }

  predicate Signing(c: Config, u: Course, s: Session)
    requires Sound(c, u)
  {
    (s.x.signatureSent ==> Keyed(s) && Heard(s))
    && (if Keyed(s) && Heard(s) && !s.x.signatureSent then Just(s.tasks.signs, Sign(u.gen, Agreed(c, u))) else s.tasks.signs == map[])
    && s.past.sent == u.sent + if s.x.signatureSent then [SentSignature(u.gen, u.transport, Agreed(c, u))] else []
  }

  predicate StageFits(c: Config, u: Course, stage: Stage)
    requires Sound(c, u)
  {
    match stage
    case CheckingSignature(signature) => signature == u.signature
    case LookingUp => true
    case Exchanging(known) => known == u.stored.Some? && c.authMode == Codec.PAKE
    case Deriving(known, keys) => known == u.stored.Some? && keys == Keys(c, u)
    case Numbering(known, keys) => known == u.stored.Some? && keys == Keys(c, u)
    case Storing(keys) => u.stored.None? && keys == Keys(c, u)
  }

  predicate Finishing(c: Config, u: Course, s: Session)
    requires Sound(c, u)
  {
    if !s.x.completing then
      s.tasks.completions == map[] && s.phase == Handshaking && s.framing.None? && s.past.wired == u.wired
    else if s.phase == Connected then
      Keyed(s) && Heard(s) && s.tasks.completions == map[] && s.framing == Some(Due(c, u)) && s.past.wired == u.wired + [Due(c, u)]
    else
      Keyed(s) && Heard(s) && Pending(s.tasks.completions) && s.framing.None? && s.past.wired == u.wired
      && forall h :: h in s.tasks.completions ==>
           s.tasks.completions == map[h := Completion(u.gen, Agreed(c, u), s.tasks.completions[h].stage)]
           && StageFits(c, u, s.tasks.completions[h].stage)
           && s.phase == if s.tasks.completions[h].stage.CheckingSignature? then Handshaking else Verifying
  }

  predicate OnCourse(c: Config, u: Course, s: Session)
    requires Sound(c, u)
  {
    Attaching(c, u, s) && Introducing(c, u, s) && Asking(c, u, s) && Signing(c, u, s) && Finishing(c, u, s)
  }

  // ----- How many steps are left -----

  /** The value of a task that is the only one of its kind. */
  ghost function Sole<V>(m: map<nat, V>): V
    requires Pending(m)
  {
    var h: nat :| h in m;
    m[h]
  }

  lemma SoleIs<V>(m: map<nat, V>, h: nat, v: V)
    requires m == map[h := v]
    ensures h in m && Sole(m) == v && m[h] == v && m - {h} == map[]
    ensures forall k :: k in m ==> k == h
  {
  }

  function StoreSteps(u: Course): nat { if u.stored.None? then 1 else 0 }

  function PakeSteps(c: Config): nat { if c.authMode == Codec.PAKE then 1 else 0 }

  function StageSteps(c: Config, u: Course, stage: Stage): nat
  {
    match stage
    case CheckingSignature(_) => 4 + PakeSteps(c) + StoreSteps(u)
    case LookingUp => 3 + PakeSteps(c) + StoreSteps(u)
    case Exchanging(_) => 3 + StoreSteps(u)
    case Deriving(_, _) => 2 + StoreSteps(u)
    case Numbering(_, _) => 1 + StoreSteps(u)
    case Storing(_) => 1
  }

  ghost function HelloSteps(s: Session): int
  {
    if Heard(s) then 0
    else if s.aside.resolving then 3 - if !Pending(s.tasks.resolutions) then 0 else Sole(s.tasks.resolutions).round
    else if s.conversation.None? then 4
    else 1
  }

  ghost function FinishSteps(c: Config, u: Course, s: Session): int
  {
    if !Told(s) then 5 + PakeSteps(c) + StoreSteps(u)
    else if s.phase == Connected then 0
    else if !s.x.completing || !Pending(s.tasks.completions) then 4 + PakeSteps(c) + StoreSteps(u)
    else StageSteps(c, u, Sole(s.tasks.completions).stage)
  }

  ghost function Left(c: Config, u: Course, s: Session): int
  {
    (if Keyed(s) then 0 else 1) + HelloSteps(s) + (if s.x.signatureSent then 0 else 1) + FinishSteps(c, u, s)
  }

  /** An undisturbed step stays on course and leaves one step less. */
  ghost predicate Advances(c: Config, u: Course, s: Session, n: Session)
    requires Sound(c, u)
  {
    OnCourse(c, u, n) && Left(c, u, n) == Left(c, u, s) - 1
  }

  // ----- The steps, one by one -----

  /** Both hellos are there: the transcript is signed. */
  lemma StartsSigning(c: Config, u: Course, s: Session)
    requires Sound(c, u) && s.x.localHello == Some(Own(c, u)) && s.x.remoteHello == Some(u.remote)
    requires s.conversation == Some(u.conversation) && s.generation == u.gen && !s.x.signatureSent && s.tasks.signs == map[]
    ensures MaybeSign(c, s) == StartSigning(s, Agreed(c, u))
    ensures Just(StartSigning(s, Agreed(c, u)).tasks.signs, Sign(u.gen, Agreed(c, u)))
  {
    assert s.tasks.next in StartSigning(s, Agreed(c, u)).tasks.signs;
  }

  lemma KeygenAdvances(c: Config, u: Course, s: Session, h: nat)
    requires Sound(c, u) && OnCourse(c, u, s) && h in s.tasks.keygens
    ensures Advances(c, u, s, KeygenDone(c, s, h, u.private, u.sessionId))
  {
    SoleIs(s.tasks.keygens, h, u.gen);
    if Heard(s) {
      var ended := s.(tasks := s.tasks.(keygens := s.tasks.keygens - {h}));
      StartsSigning(c, u, Introduced(c, ended, u.private, u.sessionId));
    }
  }

  lemma SignAdvances(c: Config, u: Course, s: Session, h: nat)
    requires Sound(c, u) && OnCourse(c, u, s) && h in s.tasks.signs
    ensures Advances(c, u, s, SignDone(s, h))
  {
    SoleIs(s.tasks.signs, h, Sign(u.gen, Agreed(c, u)));
    var n := SignDone(s, h);
    assert Finishing(c, u, n) && Signing(c, u, n) && Asking(c, u, n) && Introducing(c, u, n) && Attaching(c, u, n);
  }

  /** A completion that moves to its next await, with the store's answer noted or not. */
  lemma MovesOn(c: Config, u: Course, s: Session, h: nat, stage: Stage, lookups: map<nat, Option<Bytes>>)
    requires Sound(c, u) && OnCourse(c, u, s) && Completes(s, h) && !stage.CheckingSignature? && StageFits(c, u, stage)
    ensures var n := At(s, h, stage).(phase := Verifying, past := s.past.(lookups := lookups));
            OnCourse(c, u, n)
            && Left(c, u, n) == Left(c, u, s) - StageSteps(c, u, s.tasks.completions[h].stage) + StageSteps(c, u, stage)
  {
    var n := At(s, h, stage).(phase := Verifying, past := s.past.(lookups := lookups));
    SoleIs(s.tasks.completions, h, s.tasks.completions[h]);
    SoleIs(n.tasks.completions, h, s.tasks.completions[h].(stage := stage));
    assert Finishing(c, u, n) && Signing(c, u, n) && Asking(c, u, n) && Introducing(c, u, n) && Attaching(c, u, n);
  }

  lemma Wires(c: Config, u: Course, s: Session, h: nat)
    requires Sound(c, u) && OnCourse(c, u, s) && Completes(s, h) && s.phase == Verifying
    requires StageSteps(c, u, s.tasks.completions[h].stage) == 1
    ensures Wire(c, s, h, Keys(c, u)) == Framed(Bail(s, h), Due(c, u))
    ensures Advances(c, u, s, Framed(Bail(s, h), Due(c, u)))
  {
    var n := Framed(Bail(s, h), Due(c, u));
    SoleIs(s.tasks.completions, h, s.tasks.completions[h]);
    assert Finishing(c, u, n) && Signing(c, u, n) && Asking(c, u, n) && Introducing(c, u, n) && Attaching(c, u, n);
  }

  lemma VerifyAdvances(c: Config, u: Course, s: Session, h: nat)
    requires Fair(c, u) && Sound(c, u) && OnCourse(c, u, s) && Completes(s, h) && s.tasks.completions[h].stage.CheckingSignature?
    ensures Advances(c, u, s, VerifyDone(c, s, h))
  {
    MovesOn(c, u, s, h, LookingUp, s.past.lookups);
  }

  lemma DeriveDoneAdvances(c: Config, u: Course, s: Session, h: nat)
    requires Sound(c, u) && OnCourse(c, u, s) && Completes(s, h) && s.tasks.completions[h].stage.Deriving?
    ensures Advances(c, u, s, DeriveDone(s, h))
  {
    MovesOn(c, u, s, h, Numbering(s.tasks.completions[h].stage.known, s.tasks.completions[h].stage.keys), s.past.lookups);
  }

  lemma NumberAdvances(c: Config, u: Course, s: Session, h: nat)
    requires Sound(c, u) && OnCourse(c, u, s) && Completes(s, h) && s.tasks.completions[h].stage.Numbering?
    ensures Advances(c, u, s, NumberDone(c, s, h))
  {
    if s.tasks.completions[h].stage.known {
      Wires(c, u, s, h);
    } else {
      MovesOn(c, u, s, h, Storing(s.tasks.completions[h].stage.keys), s.past.lookups);
    }
  }

  lemma StoreAdvances(c: Config, u: Course, s: Session, h: nat)
    requires Sound(c, u) && OnCourse(c, u, s) && Completes(s, h) && s.tasks.completions[h].stage.Storing?
    ensures Advances(c, u, s, StoreDone(c, s, h))
  {
    Wires(c, u, s, h);
  }

  lemma DeriveIs(c: Config, u: Course, s: Session, h: nat, known: bool)
    requires Sound(c, u) && Completes(s, h)
    requires s.tasks.completions[h].transcript == Agreed(c, u) && s.x.transcript == Some(Agreed(c, u))
    requires !Superseded(s, s.tasks.completions[h].gen) && s.x.ephemeral.value.private == u.private
    ensures Derive(c, s, h, known, u.secret) == At(s, h, Deriving(known, Keys(c, u)))
  {
  }

  lemma ExchangeAdvances(c: Config, u: Course, s: Session, h: nat)
    requires Sound(c, u) && OnCourse(c, u, s) && Completes(s, h) && s.tasks.completions[h].stage.Exchanging? && u.secret.Some?
    ensures Advances(c, u, s, ExchangeStep(c, s, h, u.secret))
  {
    DeriveIs(c, u, s, h, u.stored.Some?);
    MovesOn(c, u, s, h, Deriving(u.stored.Some?, Keys(c, u)), s.past.lookups);
  }

  /** Where the store's answer takes the completion. */
  function Looked(c: Config, u: Course): Stage
    requires Sound(c, u)
  {
    if c.authMode == Codec.PAKE then Exchanging(u.stored.Some?) else Deriving(u.stored.Some?, Keys(c, u))
  }

  /** What the step looks at. */
  predicate AtLookup(c: Config, u: Course, s: Session, h: nat)
    requires Sound(c, u)
  {
    Completes(s, h) && s.tasks.completions[h] == Completion(u.gen, Agreed(c, u), LookingUp) && !Superseded(s, u.gen)
    && s.x.transcript == Some(Agreed(c, u)) && s.x.ephemeral.value.private == u.private && s.phase == Verifying
    && (u.stored.Some? ==> u.stored.value == u.remote.identityPublicKey) && (u.secret.Some? <==> c.authMode == Codec.PAKE)
  }

  lemma LookupLands(c: Config, u: Course, s: Session, h: nat)
    requires Sound(c, u) && AtLookup(c, u, s, h)
    ensures LookupDone(c, s, h, u.stored)
         == At(s, h, Looked(c, u)).(phase := Verifying, past := s.past.(lookups := s.past.lookups[u.gen := u.stored]))
  {
    if c.authMode != Codec.PAKE {
      var n := At(Noted(s, u.gen, u.stored), h, Exchanging(u.stored.Some?));
      DeriveIs(c, u, n, h, u.stored.Some?);
      var m: map<nat, Completion>, t := s.tasks.completions, s.tasks.completions[h];
      assert m[h := t.(stage := Exchanging(u.stored.Some?))][h := t.(stage := Looked(c, u))] == m[h := t.(stage := Looked(c, u))];
    }
  }

  lemma LookupAdvances(c: Config, u: Course, s: Session, h: nat)
    requires Fair(c, u) && Sound(c, u) && OnCourse(c, u, s) && Completes(s, h) && s.tasks.completions[h].stage.LookingUp?
    ensures Advances(c, u, s, LookupDone(c, s, h, u.stored))
  {
    assert AtLookup(c, u, s, h);
    LookupLands(c, u, s, h);
    MovesOn(c, u, s, h, Looked(c, u), s.past.lookups[u.gen := u.stored]);
  }

  // ----- The peer's two messages -----

  lemma HelloDispatched(c: Config, u: Course, s: Session, rejects: Bytes -> bool)
    requires Fair(c, u) && !Heard(s) && s.generation == u.gen
    ensures Dispatch(c, s, HelloMessage(u.remote), u.gen, rejects) == MaybeSign(c, AcceptHello(s, u.gen, u.remote))
  {
    HelloInverse(c.onCurve, u.remote, HelloMessage(u.remote));
  }

  lemma SignatureDispatched(c: Config, u: Course, s: Session, rejects: Bytes -> bool)
    requires Fair(c, u) && s.generation == u.gen
    ensures Dispatch(c, s, SignatureMessage(u), u.gen, rejects) == VerifyPeer(s, u.signature)
  {
    assert SignatureMessage(u)[1..] == u.signature;
  }

  /** The hello is dispatched: the transcript is signed if the local hello is there already. */
  lemma HearAdvances(c: Config, u: Course, s: Session, rejects: Bytes -> bool)
    requires Fair(c, u) && Sound(c, u) && OnCourse(c, u, s) && !Heard(s) && !s.aside.resolving && s.conversation.Some?
    ensures Advances(c, u, s, Dispatch(c, s, HelloMessage(u.remote), u.gen, rejects))
  {
    HelloDispatched(c, u, s, rejects);
    var n := AcceptHello(s, u.gen, u.remote);
    if Keyed(s) {
      StartsSigning(c, u, n);
    }
  }

  /** The signature is dispatched: its check begins. */
  lemma TellAdvances(c: Config, u: Course, s: Session, rejects: Bytes -> bool)
    requires Fair(c, u) && Sound(c, u) && OnCourse(c, u, s) && Keyed(s) && Heard(s) && !Told(s)
    ensures Advances(c, u, s, Dispatch(c, s, SignatureMessage(u), u.gen, rejects))
  {
    SignatureDispatched(c, u, s, rejects);
    var t := Completion(u.gen, Agreed(c, u), CheckingSignature(u.signature));
    var n := Checking(Latched(s), t);
    SoleIs(n.tasks.completions, s.tasks.next, t);
    assert Finishing(c, u, n) && Signing(c, u, n) && Asking(c, u, n) && Introducing(c, u, n) && Attaching(c, u, n);
  }

  lemma ParkAdvances(c: Config, u: Course, s: Session)
    requires Sound(c, u) && OnCourse(c, u, s) && Keyed(s) && s.aside.resolving && !Told(s)
    ensures Advances(c, u, s, s.(aside := s.aside.(parked := s.aside.parked + [SignatureMessage(u)])))
  {
  }

  lemma AskAdvances(c: Config, u: Course, s: Session)
    requires Fair(c, u) && Sound(c, u) && OnCourse(c, u, s) && !Heard(s) && !s.aside.resolving && s.conversation.None?
    ensures Advances(c, u, s, StartResolving(c, s, HelloMessage(u.remote)))
  {
    HelloInverse(c.onCurve, u.remote, HelloMessage(u.remote));
    var n := StartResolving(c, s, HelloMessage(u.remote));
    SoleIs(n.tasks.resolutions, s.tasks.next, Resolution(u.gen, HelloMessage(u.remote), 0));
  }

  lemma ReceiveAdvances(c: Config, u: Course, s: Session, bytes: Bytes, rejects: Bytes -> bool)
    requires Fair(c, u) && Sound(c, u) && OnCourse(c, u, s) && Undisturbed(c, u, s, Receives(bytes, rejects))
    ensures Advances(c, u, s, Inbound(c, s, bytes, rejects))
  {
    if bytes == HelloMessage(u.remote) && !Heard(s) && !s.aside.resolving {
      if s.conversation.None? {
        AskAdvances(c, u, s);
      } else {
        HearAdvances(c, u, s, rejects);
      }
    } else if s.aside.resolving {
      ParkAdvances(c, u, s);
    } else {
      TellAdvances(c, u, s, rejects);
    }
  }

  // ----- A group link's resolution -----

  lemma RoundAdvances(c: Config, u: Course, s: Session, h: nat, flag: bool, rejects: Bytes -> bool)
    requires Sound(c, u) && OnCourse(c, u, s) && h in s.tasks.resolutions && s.tasks.resolutions[h].round < 2
    ensures Advances(c, u, s, ResolveStep(c, s, h, u.conversation, flag, rejects))
  {
    var t := s.tasks.resolutions[h];
    var n := ResolveStep(c, s, h, u.conversation, flag, rejects);
    assert s.aside.resolving;
    SoleIs(s.tasks.resolutions, h, t);
    SoleIs(n.tasks.resolutions, h, t.(round := t.round + 1));
    assert Finishing(c, u, n) && Signing(c, u, n) && Asking(c, u, n) && Introducing(c, u, n) && Attaching(c, u, n);
  }

  /** `s` as if its resolution had ended before any message came. */
  function Opened(s: Session, flag: bool): Session
  {
    s.(authFailed := flag, aside := s.aside.(resolving := false, parked := []), tasks := s.tasks.(resolutions := map[]))
  }

  lemma OpenedOnCourse(c: Config, u: Course, s: Session, h: nat, flag: bool)
    requires Sound(c, u) && OnCourse(c, u, s) && h in s.tasks.resolutions && s.tasks.resolutions[h].round == 2
    ensures OnCourse(c, u, Opened(s, flag))
    ensures Left(c, u, Opened(s, flag)) == Left(c, u, s) + if s.aside.parked == [] then 0 else 1
    ensures s.tasks.resolutions - {h} == map[] && s.aside.resolving
  {
    SoleIs(s.tasks.resolutions, h, s.tasks.resolutions[h]);
    var n := Opened(s, flag);
    assert Finishing(c, u, n) && Signing(c, u, n) && Asking(c, u, n) && Introducing(c, u, n) && Attaching(c, u, n);
  }

  lemma SignAside(c: Config, s: Session, a: Aside)
    ensures MaybeSign(c, s.(aside := a)) == MaybeSign(c, s).(aside := a)
    ensures MaybeSign(c, s).aside == s.aside && MaybeSign(c, s).tasks.resolutions == s.tasks.resolutions
    ensures MaybeSign(c, s).generation == s.generation && MaybeSign(c, s).transport == s.transport
  {
  }

  lemma VerifyAside(s: Session, a: Aside, signature: Bytes)
    ensures VerifyPeer(s.(aside := a), signature) == VerifyPeer(s, signature).(aside := a)
    ensures VerifyPeer(s, signature).aside == s.aside && VerifyPeer(s, signature).tasks.resolutions == s.tasks.resolutions
    ensures VerifyPeer(s, signature).generation == s.generation
  {
  }

  /** The hello alone is dispatched, then perhaps the signature. */
  function Given(c: Config, u: Course, s: Session, signed: bool): Session
  {
    var heard := MaybeSign(c, AcceptHello(s, u.gen, u.remote));
    if signed then VerifyPeer(heard, u.signature) else heard
  }

  lemma GivenAside(c: Config, u: Course, s: Session, a: Aside, signed: bool)
    ensures Given(c, u, s.(aside := a), signed) == Given(c, u, s, signed).(aside := a)
    ensures Given(c, u, s, signed).aside == s.aside && Given(c, u, s, signed).tasks.resolutions == s.tasks.resolutions
    ensures Given(c, u, s, signed).generation == s.generation
  {
    SignAside(c, AcceptHello(s, u.gen, u.remote), a);
    VerifyAside(MaybeSign(c, AcceptHello(s, u.gen, u.remote)), a, u.signature);
  }

  /** The waiting messages are dispatched. */
  lemma ReplayIs(c: Config, u: Course, s: Session, signed: bool, rejects: Bytes -> bool)
    requires Fair(c, u) && !Heard(s) && s.generation == u.gen && s.transport.Some?
    ensures Replay(c, Dispatch(c, s, HelloMessage(u.remote), u.gen, rejects), u.gen, if signed then [SignatureMessage(u)] else [], rejects)
         == Given(c, u, s, signed)
  {
    HelloDispatched(c, u, s, rejects);
    SignAside(c, AcceptHello(s, u.gen, u.remote), s.aside);
    var heard := MaybeSign(c, AcceptHello(s, u.gen, u.remote));
    SignatureDispatched(c, u, heard, rejects);
  }

  lemma ReleaseIs(c: Config, u: Course, s: Session, h: nat, flag: bool, rejects: Bytes -> bool)
    requires Fair(c, u) && Sound(c, u) && OnCourse(c, u, s) && h in s.tasks.resolutions && s.tasks.resolutions[h].round == 2
    requires s.tasks.resolutions - {h} == map[] && s.aside.resolving
    ensures ResolveStep(c, s, h, u.conversation, flag, rejects) == Given(c, u, Opened(s, flag), s.aside.parked != [])
  {
    var r := s.(authFailed := flag, tasks := s.tasks.(resolutions := map[]));
    var signed := s.aside.parked != [];
    ReplayIs(c, u, r, signed, rejects);
    GivenAside(c, u, r, Opened(s, flag).aside, signed);
    assert r.(aside := Opened(s, flag).aside) == Opened(s, flag);
    var none: map<nat, Resolution> := map[];
    assert none - {h} == none;
  }

  /** The waiting messages are dispatched as if they came after the resolution. */
  lemma ReleaseAdvances(c: Config, u: Course, s: Session, h: nat, flag: bool, rejects: Bytes -> bool)
    requires Fair(c, u) && Sound(c, u) && OnCourse(c, u, s) && h in s.tasks.resolutions && s.tasks.resolutions[h].round == 2
    ensures Advances(c, u, s, ResolveStep(c, s, h, u.conversation, flag, rejects))
  {
    OpenedOnCourse(c, u, s, h, flag);
    ReleaseIs(c, u, s, h, flag, rejects);
    GivenAdvances(c, u, Opened(s, flag), s.aside.parked != [], rejects);
  }

  lemma GivenAdvances(c: Config, u: Course, s: Session, signed: bool, rejects: Bytes -> bool)
    requires Fair(c, u) && Sound(c, u) && OnCourse(c, u, s) && !Heard(s) && !s.aside.resolving && s.conversation.Some?
    requires signed ==> Keyed(s) && !Told(s)
    ensures OnCourse(c, u, Given(c, u, s, signed))
    ensures Left(c, u, Given(c, u, s, signed)) == Left(c, u, s) - if signed then 2 else 1
  {
    HelloDispatched(c, u, s, rejects);
    HearAdvances(c, u, s, rejects);
    if signed {
      var heard := Given(c, u, s, false);
      SignAside(c, AcceptHello(s, u.gen, u.remote), s.aside);
      StartsSigning(c, u, AcceptHello(s, u.gen, u.remote));
      SignatureDispatched(c, u, heard, rejects);
      TellAdvances(c, u, heard, rejects);
    }
  }

  // ----- Whole runs -----

  predicate OfCompletion(e: Event)
  {
    e.VerifyResumes? || e.LookupResumes? || e.ExchangeResumes? || e.DeriveResumes? || e.NumberResumes? || e.StoreResumes?
  }

  lemma CompletionAdvances(c: Config, u: Course, s: Session, e: Event)
    requires Fair(c, u) && Sound(c, u) && OnCourse(c, u, s) && Undisturbed(c, u, s, e) && OfCompletion(e)
    ensures Advances(c, u, s, Next(c, s, e))
  {
    match e
    case VerifyResumes(h) => VerifyAdvances(c, u, s, h);
    case LookupResumes(h, _) => LookupAdvances(c, u, s, h);
    case ExchangeResumes(h, _) => ExchangeAdvances(c, u, s, h);
    case DeriveResumes(h) => DeriveDoneAdvances(c, u, s, h);
    case NumberResumes(h) => NumberAdvances(c, u, s, h);
    case StoreResumes(h) => StoreAdvances(c, u, s, h);
  }

  lemma ResolveAdvances(c: Config, u: Course, s: Session, h: nat, flag: bool, rejects: Bytes -> bool)
    requires Fair(c, u) && Sound(c, u) && OnCourse(c, u, s) && h in s.tasks.resolutions
    ensures Advances(c, u, s, ResolveStep(c, s, h, u.conversation, flag, rejects))
  {
    if s.tasks.resolutions[h].round < 2 {
      RoundAdvances(c, u, s, h, flag, rejects);
    } else {
      ReleaseAdvances(c, u, s, h, flag, rejects);
    }
  }

  lemma StepAdvances(c: Config, u: Course, s: Session, e: Event)
    requires Fair(c, u) && Sound(c, u) && OnCourse(c, u, s) && Undisturbed(c, u, s, e)
    ensures Advances(c, u, s, Next(c, s, e))
  {
    if OfCompletion(e) {
      CompletionAdvances(c, u, s, e);
    } else {
      match e
      case KeygenResumes(h, _, _) => KeygenAdvances(c, u, s, h);
      case Receives(bytes, rejects) => ReceiveAdvances(c, u, s, bytes, rejects);
      case ResolveResumes(h, _, flag, rejects) => ResolveAdvances(c, u, s, h, flag, rejects);
      case SignResumes(h) => SignAdvances(c, u, s, h);
    }
  }

  /** The attach is through: its one signature is out and it is connected. */
  predicate Through(s: Session)
  {
    s.x.signatureSent && s.phase == Connected
  }

  /** Until then some step of its own is always possible. */
  lemma NeverStuck(c: Config, u: Course, s: Session) returns (e: Event)
    requires Fair(c, u) && Sound(c, u) && OnCourse(c, u, s) && !Through(s)
    ensures Undisturbed(c, u, s, e)
  {
    if s.x.completing && s.phase != Connected {
      e := CompletionGoes(c, u, s);
    } else if !Keyed(s) {
      var h :| h in s.tasks.keygens;
      e := KeygenResumes(h, u.private, u.sessionId);
    } else if s.aside.resolving {
      var h :| h in s.tasks.resolutions;
      e := ResolveResumes(h, u.conversation, false, _ => false);
    } else if !Heard(s) {
      e := Receives(HelloMessage(u.remote), _ => false);
    } else if !s.x.signatureSent {
      var h :| h in s.tasks.signs;
      e := SignResumes(h);
    } else {
      e := Receives(SignatureMessage(u), _ => false);
    }
  }

  lemma CompletionGoes(c: Config, u: Course, s: Session) returns (e: Event)
    requires u.remote.protocolVersion == Codec.PROTOCOL_VERSION && Sound(c, u) && Finishing(c, u, s)
    requires s.x.completing && s.phase != Connected
    ensures Undisturbed(c, u, s, e)
  {
    var h :| h in s.tasks.completions;
    match s.tasks.completions[h].stage
    case CheckingSignature(_) => e := VerifyResumes(h);
    case LookingUp => e := LookupResumes(h, u.stored);
    case Exchanging(_) => e := ExchangeResumes(h, u.secret);
    case Deriving(_, _) => e := DeriveResumes(h);
    case Numbering(_, _) => e := NumberResumes(h);
    case Storing(_) => e := StoreResumes(h);
  }

  lemma NoneLeft(c: Config, u: Course, s: Session)
    requires Sound(c, u) && OnCourse(c, u, s)
    ensures Left(c, u, s) >= 0 && (Left(c, u, s) == 0 <==> Through(s))
  {
    if h :| h in s.tasks.completions {
      SoleIs(s.tasks.completions, h, s.tasks.completions[h]);
    }
    if h :| h in s.tasks.resolutions {
      SoleIs(s.tasks.resolutions, h, s.tasks.resolutions[h]);
    }
  }

  ghost predicate Runs(c: Config, u: Course, s: Session, es: seq<Event>)
    requires Fair(c, u)
    decreases |es|
  {
    es == [] || (Undisturbed(c, u, s, es[0]) && Runs(c, u, Next(c, s, es[0]), es[1..]))
  }

  ghost function After(c: Config, u: Course, s: Session, es: seq<Event>): Session
    requires Fair(c, u) && Runs(c, u, s, es)
    decreases |es|
  {
    if es == [] then s else After(c, u, Next(c, s, es[0]), es[1..])
  }

  lemma {:induction false} RunAdvances(c: Config, u: Course, s: Session, es: seq<Event>)
    requires Fair(c, u) && Sound(c, u) && OnCourse(c, u, s) && Runs(c, u, s, es)
    ensures OnCourse(c, u, After(c, u, s, es)) && Left(c, u, After(c, u, s, es)) == Left(c, u, s) - |es|
    decreases |es|
  {
    if es != [] {
      StepAdvances(c, u, s, es[0]);
      RunAdvances(c, u, Next(c, s, es[0]), es[1..]);
    }
  }

  // ----- Where an attach begins -----

  /** Nothing of an earlier attach is in flight, and the caller may attach. */
  predicate Begins(c: Config, u: Course, s: Session)
  {
    (s.phase == Waiting || s.phase == Signaling) && u.gen == s.generation + 1 && u.sent == s.past.sent && u.wired == s.past.wired
    && (s.conversation == Some(u.conversation) || (s.conversation.None? && c.groupLink))
    && s.tasks.keygens == map[] && s.tasks.signs == map[] && s.tasks.completions == map[]
    && s.tasks.resolutions == map[] && s.tasks.throwing == map[]
  }

  /** Messages wait only for a resolution, and a resolution only runs on a transport. */
  predicate Quiet(s: Session)
  {
    (s.aside.parked != [] ==> s.aside.resolving) && (s.aside.resolving ==> s.transport.Some?)
  }

  /** Neither the transport nor what waits for a resolution changes. */
  predicate Still(s: Session, n: Session)
  {
    n.aside.parked == s.aside.parked && n.aside.resolving == s.aside.resolving && n.transport == s.transport
    && n.generation == s.generation
  }

  lemma DispatchStill(c: Config, s: Session, bytes: Bytes, gen: nat, rejects: Bytes -> bool)
    ensures Still(s, Dispatch(c, s, bytes, gen, rejects))
  {
  }

  lemma {:induction false} ReplayStill(c: Config, s: Session, gen: nat, messages: seq<Bytes>, rejects: Bytes -> bool)
    ensures Still(s, Replay(c, s, gen, messages, rejects))
    decreases |messages|
  {
    if messages != [] && gen == s.generation && s.transport.Some? {
      DispatchStill(c, s, messages[0], gen, rejects);
      ReplayStill(c, Dispatch(c, s, messages[0], gen, rejects), gen, messages[1..], rejects);
    }
  }

  lemma DeriveStill(c: Config, s: Session, h: nat, known: bool, secret: Option<Bytes>)
    requires Completes(s, h) && !Superseded(s, s.tasks.completions[h].gen)
    ensures Still(s, Derive(c, s, h, known, secret))
  {
  }

  lemma LookupStill(c: Config, s: Session, h: nat, existing: Option<Bytes>)
    requires Enabled(c, s, LookupResumes(h, existing))
    ensures Still(s, LookupDone(c, s, h, existing))
  {
    if !Superseded(s, s.tasks.completions[h].gen) && c.authMode != Codec.PAKE {
      DeriveStill(c, At(Noted(s, s.generation, existing), h, Exchanging(existing.Some?)), h, existing.Some?, None);
    }
  }

  lemma CompletionStill(c: Config, s: Session, e: Event)
    requires Enabled(c, s, e) && (e.ExchangeResumes? || e.NumberResumes? || e.StoreResumes? || e.KeygenResumes?)
    ensures Still(s, Next(c, s, e))
  {
    if e.ExchangeResumes? && !Superseded(s, s.tasks.completions[e.task].gen) && e.secret.Some? {
      DeriveStill(c, s, e.task, s.tasks.completions[e.task].stage.known, e.secret);
    }
  }

  lemma ResolveQuiet(c: Config, s: Session, e: Event)
    requires Quiet(s) && Enabled(c, s, e) && e.ResolveResumes?
    ensures Quiet(Next(c, s, e))
  {
    var t := s.tasks.resolutions[e.task];
    var r := s.(authFailed := e.flag, tasks := s.tasks.(resolutions := s.tasks.resolutions - {e.task}));
    var heard := Dispatch(c, r, t.hello, t.gen, e.rejects);
    DispatchStill(c, r, t.hello, t.gen, e.rejects);
    ReplayStill(c, heard, t.gen, s.aside.parked, e.rejects);
  }

  lemma InboundQuiet(c: Config, s: Session, bytes: Bytes, rejects: Bytes -> bool)
    requires Inv(c, s) && Quiet(s)
    ensures Quiet(Inbound(c, s, bytes, rejects))
  {
    Part(c, s, Attachment);
    DispatchStill(c, s, bytes, s.generation, rejects);
  }

  lemma StepQuiet(c: Config, s: Session, e: Event)
    requires Inv(c, s) && Quiet(s) && Enabled(c, s, e)
    ensures Quiet(Next(c, s, e))
  {
    match e
    case ResolveResumes(_, _, _, _) => ResolveQuiet(c, s, e);
    case Receives(bytes, rejects) => InboundQuiet(c, s, bytes, rejects);
    case LookupResumes(h, existing) => LookupStill(c, s, h, existing);
    case ExchangeResumes(_, _) => CompletionStill(c, s, e);
    case NumberResumes(_) => CompletionStill(c, s, e);
    case StoreResumes(_) => CompletionStill(c, s, e);
    case KeygenResumes(_, _, _) => CompletionStill(c, s, e);
    case _ =>
  }

  lemma {:induction false} ReachedQuiet(c: Config, conversation: Option<Bytes>, es: seq<Event>, s: Session)
    requires StartOk(c, conversation) && Reached(c, conversation, es, s)
    ensures Quiet(s)
    decreases |es|
  {
    if es != [] {
      var last := |es| - 1;
      var r :| Reached(c, conversation, es[..last], r) && Enabled(c, r, es[last]) && s == Next(c, r, es[last]);
      ReachedQuiet(c, conversation, es[..last], r);
      ReachedInv(c, conversation, es[..last], r);
      StepQuiet(c, r, es[last]);
    }
  }

  /** How many steps an undisturbed attach takes: key generation, signing, the peer's two messages and four
      awaits of the completion; one more with a PAKE, one more for a peer met for the first time, and three
      for the id of a group link. */
  function Steps(c: Config, u: Course, s: Session): nat
  {
    8 + (if c.authMode == Codec.PAKE then 1 else 0) + (if u.stored.None? then 1 else 0) + if s.conversation.None? then 3 else 0
  }

  lemma AttachOnCourse(c: Config, u: Course, s: Session)
    requires Sound(c, u) && Inv(c, s) && Quiet(s) && Begins(c, u, s)
    ensures var n := Next(c, s, Attaches(u.transport)); OnCourse(c, u, n) && Left(c, u, n) == Steps(c, u, s)
  {
    Part(c, s, Attachment);
    Part(c, s, Ownership);
    Part(c, s, Wired);
    var n := Attach(c, s, u.transport);
    assert s.tasks.next in n.tasks.keygens;
    assert Finishing(c, u, n) && Signing(c, u, n) && Asking(c, u, n) && Introducing(c, u, n) && Attaching(c, u, n);
  }

  // ----- The theorems -----

  /** One side: an orchestrator that reached `s`, what its next attach meets, and the steps of that attach. */
  datatype Side = Side(c: Config, start: Option<Bytes>, history: seq<Event>, s: Session, u: Course, es: seq<Event>)

  /** From any reached state with nothing in flight: a new attach with a fair peer, and then only steps of the
      attach itself, in any order. */
  ghost predicate Proceeds(d: Side)
  {
    StartOk(d.c, d.start) && Reached(d.c, d.start, d.history, d.s) && Fair(d.c, d.u) && Begins(d.c, d.u, d.s)
    && Runs(d.c, d.u, Next(d.c, d.s, Attaches(d.u.transport)), d.es)
  }

  ghost function End(d: Side): Session
    requires Proceeds(d)
  {
    After(d.c, d.u, Next(d.c, d.s, Attaches(d.u.transport)), d.es)
  }

  lemma EndOnCourse(d: Side)
    requires Proceeds(d)
    ensures Sound(d.c, d.u) && OnCourse(d.c, d.u, End(d)) && Left(d.c, d.u, End(d)) == Steps(d.c, d.u, d.s) - |d.es|
  {
    FairSound(d.c, d.u);
    ReachedInv(d.c, d.start, d.history, d.s);
    ReachedQuiet(d.c, d.start, d.history, d.s);
    AttachOnCourse(d.c, d.u, d.s);
    RunAdvances(d.c, d.u, Next(d.c, d.s, Attaches(d.u.transport)), d.es);
  }

  /** An undisturbed attach gets through, in whatever order its key generation, its signature, the two
      messages and the awaits of the completion come: it can always go on until it took its fixed number of
      steps, and then it is connected, with sender and receiver wired on this attach, its transcript and the
      session ids and keys that follow from the two hellos, and with its one signature sent. */
  lemma GetsThrough(d: Side)
    requires Proceeds(d)
    ensures Sound(d.c, d.u) && |d.es| <= Steps(d.c, d.u, d.s)
    ensures |d.es| < Steps(d.c, d.u, d.s) ==> exists e :: Undisturbed(d.c, d.u, End(d), e)
    ensures |d.es| == Steps(d.c, d.u, d.s) ==>
              End(d).phase == Connected && End(d).framing == Some(Due(d.c, d.u))
              && End(d).past.wired == d.s.past.wired + [Due(d.c, d.u)]
              && End(d).past.sent == d.s.past.sent + [SentSignature(d.s.generation + 1, d.u.transport, Agreed(d.c, d.u))]
  {
    EndOnCourse(d);
    NoneLeft(d.c, d.u, End(d));
    if |d.es| < Steps(d.c, d.u, d.s) {
      var e := NeverStuck(d.c, d.u, End(d));
    } else {
      ThroughIs(d.c, d.u, End(d));
    }
  }

  lemma ThroughIs(c: Config, u: Course, s: Session)
    requires Sound(c, u) && OnCourse(c, u, s) && Through(s)
    ensures s.phase == Connected && s.framing == Some(Due(c, u)) && s.past.wired == u.wired + [Due(c, u)]
    ensures s.past.sent == u.sent + [SentSignature(u.gen, u.transport, Agreed(c, u))]
  {
  }

  /** The hellos are swapped, and conversation, auth mode, primitives and PAKE secret are the same. */
  ghost predicate Facing(a: Side, b: Side)
  {
    a.u.remote == Own(b.c, b.u) && b.u.remote == Own(a.c, a.u) && a.u.conversation == b.u.conversation
    && a.c.authMode == b.c.authMode && a.c.p == b.c.p && a.u.secret == b.u.secret
  }

  /** Two orchestrators that face each other both connect once each took its steps: on one transcript, each
      expecting the session id the other sends under, and each with the other's receive key as send key. */
  lemma BothConnect(a: Side, b: Side)
    requires Proceeds(a) && Proceeds(b) && Facing(a, b) && Commutes(a.c.p)
    requires |a.es| == Steps(a.c, a.u, a.s) && |b.es| == Steps(b.c, b.u, b.s)
    ensures End(a).phase == End(b).phase == Connected && End(a).framing.Some? && End(b).framing.Some?
    ensures var w, v := End(a).framing.value, End(b).framing.value;
            w.transcript == v.transcript && w.transport == a.u.transport && v.transport == b.u.transport
            && w.localSessionId == v.peerSessionId && v.localSessionId == w.peerSessionId
            && w.keys.sendKey == v.keys.recvKey && v.keys.sendKey == w.keys.recvKey
  {
    GetsThrough(a);
    GetsThrough(b);
    SameTranscript(a.c.onCurve, a.u.conversation, Own(a.c, a.u), a.u.remote, a.c.authMode);
    KeysMatch(a.c.p, a.c.onCurve, a.u.conversation, Own(a.c, a.u), a.u.remote, a.c.authMode, a.u.private, b.u.private, a.u.secret);
  }
}
