/** What every run of the handshake keeps. */
module HandshakeRuns {
  import opened Bytes
  import opened HandshakeCodec
  import opened HandshakeSpec
  import Codec

  /** The attach `gen` is the latest and was not torn down. */
  predicate Live(s: Session, gen: nat) { gen == s.generation && s.transport.Some? }

  predicate Running(p: Phase) { p == Handshaking || p == Verifying || p == Connected }

  /** Tasks are numbered as they begin. */
  predicate Numbered(t: Tasks)
  {
    (forall h :: h in t.keygens ==> h < t.next) && (forall h :: h in t.signs ==> h < t.next)
    && (forall h :: h in t.completions ==> h < t.next) && (forall h :: h in t.resolutions ==> h < t.next)
    && (forall h :: h in t.throwing ==> h < t.next)
  }

  predicate Attached(s: Session)
  {
    (s.transport.Some? <==> Running(s.phase))
    && (s.transport.Some? ==> s.generation in s.past.attaches && s.past.attaches[s.generation] == s.transport.value)
    && (s.transport.Some? ==> s.generation !in s.past.torn)
    && (s.transport.None? && s.generation > 0 ==> s.generation in s.past.torn)
    && (s.failed ==> s.transport.None?) && Numbered(s.tasks)
    && (forall g :: g in s.past.lookups ==> g <= s.generation)
    && (forall h :: h in s.tasks.throwing ==> s.tasks.throwing[h].gen <= s.generation)
    && (forall g :: g in s.past.attaches ==> g <= s.generation)
    && (forall g :: g in s.past.torn ==> g <= s.generation)
    && (s.aside.timer ==> s.phase == Handshaking || s.phase == Verifying)
    && (s.conversation.Some? ==> |s.conversation.value| == Codec.CONVERSATION_ID_BYTES)
  }

  /** `t` is the transcript of attach `gen`: built from the hello made and the hello accepted in it. */
  predicate IsTranscript(c: Config, conversation: Option<Bytes>, past: Past, gen: nat, t: Transcript)
  {
    conversation.Some? && gen in past.hellos && gen in past.accepted
    && BuildTranscript(conversation.value, past.hellos[gen], past.accepted[gen], c.authMode) == Ok(t)
  }

  /** The fields of the handshake belong to the current attach. */
  predicate Owned(c: Config, conversation: Option<Bytes>, gen: nat, live: bool, x: Exchange, past: Past)
  {
    (x.ephemeral.Some? <==> x.localHello.Some?)
    && (!live ==> x == NOTHING)
    && (x.localHello.Some? ==> gen in past.pairs && past.pairs[gen] == x.ephemeral.value)
    && (x.localHello.Some? ==> gen in past.hellos && past.hellos[gen] == x.localHello.value)
    && (x.remoteHello.Some? ==> conversation.Some? && gen in past.accepted && past.accepted[gen] == x.remoteHello.value)
    && (live && x.remoteHello.None? ==> gen !in past.accepted)
    && (x.transcript.Some? ==> x.localHello.Some? && x.remoteHello.Some?)
    && (x.transcript.Some? ==> IsTranscript(c, conversation, past, gen, x.transcript.value))
  }

  /** A hello of its own, with the public half of its key pair. */
  predicate OwnHello(c: Config, past: Past, g: nat)
    requires g in past.hellos
  {
    g in past.pairs && HelloOk(c.onCurve, past.hellos[g]) && past.hellos[g].identityPublicKey == c.self
    && past.hellos[g].ephemeralPublicKey == c.p.public(past.pairs[g].private)
  }

  predicate Made(c: Config, conversation: Option<Bytes>, gen: nat, keygens: map<nat, nat>, past: Past)
  {
    (forall g :: g in past.hellos ==> g <= gen && OwnHello(c, past, g))
    && (forall g :: g in past.pairs ==> g in past.hellos)
    && (forall g :: g in past.accepted ==> g <= gen && HelloOk(c.onCurve, past.accepted[g]))
    && (conversation.None? ==> past.accepted == map[])
    && (forall h :: h in keygens ==> keygens[h] <= gen && keygens[h] !in past.hellos)
    && (forall h, k :: h in keygens && k in keygens && keygens[h] == keygens[k] ==> h == k)
  }

  /** At most one live resolution, and nothing is dispatched before it is through. */
  predicate Resolutions(conversation: Option<Bytes>, gen: nat, live: bool, resolving: bool, unmet: bool, rs: map<nat, Resolution>)
  {
    (forall h :: h in rs ==> rs[h].gen <= gen)
    && (live ==> forall h :: h in rs && rs[h].gen == gen ==>
          resolving && unmet && (rs[h].round == 0 <==> conversation.None?))
    && (live ==> forall h, k :: h in rs && k in rs && rs[h].gen == gen && rs[k].gen == gen ==> h == k)
  }

  predicate GoodSignature(c: Config, conversation: Option<Bytes>, past: Past, e: SentSignature)
  {
    e.gen in past.attaches && e.transport == past.attaches[e.gen] && IsTranscript(c, conversation, past, e.gen, e.transcript)
  }

  /** What is signed for an attach is its transcript, and it goes out once, on its transport. */
  predicate Signatures(c: Config, conversation: Option<Bytes>, gen: nat, unsent: bool, signs: map<nat, Sign>, past: Past)
  {
    (forall h :: h in signs ==> IsTranscript(c, conversation, past, signs[h].gen, signs[h].transcript))
    && (forall i :: 0 <= i < |past.sent| ==> GoodSignature(c, conversation, past, past.sent[i]))
    && (forall i, j :: 0 <= i < j < |past.sent| ==> past.sent[i].gen != past.sent[j].gen)
    && (unsent ==> forall i :: 0 <= i < |past.sent| ==> past.sent[i].gen != gen)
  }

  /** The keys of attach `gen`: from its key pair, its transcript, and a PAKE secret where one is due. */
  ghost predicate KeysOf(c: Config, past: Past, gen: nat, t: Transcript, keys: SessionKeys)
  {
    gen in past.pairs && TranscriptFault(t).None?
    && |c.p.shared(past.pairs[gen].private, PeerEphemeral(c, t))| == Codec.PUBLIC_KEY_BYTES
    && exists secret :: ScheduleFault(t, c.self, secret).None?
         && keys == KeysFor(c.p, t, c.self, Secret(c.p, past.pairs[gen].private, PeerEphemeral(c, t)), secret)
  }

  /** A signature over the transcript verified under the peer's identity key. */
  ghost predicate Verified(c: Config, t: Transcript)
  {
    TranscriptFault(t).None? && exists signature :: c.verify(PeerIdentity(c, t), signature, TranscriptBytes(t))
  }

  /** The store was asked for the peer's key under attach `gen`, and knew none or this one. */
  predicate Recognised(c: Config, past: Past, gen: nat, t: Transcript)
  {
    gen in past.lookups && (past.lookups[gen].Some? ==> past.lookups[gen].value == PeerIdentity(c, t))
  }

  ghost predicate StageOk(c: Config, past: Past, t: Completion)
  {
    t.stage.CheckingSignature?
    || (Verified(c, t.transcript) && (t.stage.LookingUp? || Recognised(c, past, t.gen, t.transcript))
        && match t.stage
           case Deriving(_, keys) => KeysOf(c, past, t.gen, t.transcript, keys)
           case Numbering(_, keys) => KeysOf(c, past, t.gen, t.transcript, keys)
           case Storing(keys) => KeysOf(c, past, t.gen, t.transcript, keys)
           case _ => true)
  }

  ghost predicate Completing(c: Config, conversation: Option<Bytes>, past: Past, t: Completion)
  {
    IsTranscript(c, conversation, past, t.gen, t.transcript) && StageOk(c, past, t)
  }

  /** A live completion: it holds the latch, and is the only one; the phase says how far it is. */
  predicate InPhase(phase: Phase, x: Exchange, lookups: map<nat, Option<Bytes>>, t: Completion)
  {
    x.completing && x.localHello.Some? && x.transcript == Some(t.transcript)
    && phase == (if t.stage.CheckingSignature? then Handshaking else Verifying)
    && (t.stage.CheckingSignature? || t.stage.LookingUp? ==> t.gen !in lookups)
  }

  ghost predicate Completions(c: Config, s: Session)
  {
    var ts := s.tasks.completions;
    (forall h :: h in ts ==> Completing(c, s.conversation, s.past, ts[h]))
    && (forall h :: h in ts && Live(s, ts[h].gen) ==> InPhase(s.phase, s.x, s.past.lookups, ts[h]))
    && (forall h, k :: h in ts && k in ts && Live(s, ts[h].gen) && Live(s, ts[k].gen) ==> h == k)
    && (s.transport.Some? && !s.x.completing ==> s.phase == Handshaking && s.generation !in s.past.lookups)
  }

  /** Every part of the wiring comes from its attach, and the peer proved to be the one it names. */
  ghost predicate Whole(c: Config, conversation: Option<Bytes>, past: Past, w: Wiring)
  {
    w.gen in past.attaches && w.transport == past.attaches[w.gen] && IsTranscript(c, conversation, past, w.gen, w.transcript)
    && w.localSessionId == past.hellos[w.gen].sessionId && w.peerSessionId == past.accepted[w.gen].sessionId
    && KeysOf(c, past, w.gen, w.transcript, w.keys) && Verified(c, w.transcript) && Recognised(c, past, w.gen, w.transcript)
  }

  ghost predicate Wirings(c: Config, conversation: Option<Bytes>, gen: nat, phase: Phase, framing: Option<Wiring>, past: Past)
  {
    (forall i :: 0 <= i < |past.wired| ==> Whole(c, conversation, past, past.wired[i]))
    && (forall i, j :: 0 <= i < j < |past.wired| ==> past.wired[i].gen != past.wired[j].gen)
    && (phase == Handshaking || phase == Verifying ==> forall i :: 0 <= i < |past.wired| ==> past.wired[i].gen != gen)
    && (framing.Some? <==> phase == Connected)
    && (framing.Some? ==> past.wired != [] && framing.value == past.wired[|past.wired| - 1] && framing.value.gen == gen)
  }

  /** The invariant, concern by concern. */
  datatype Concern = Attachment | Ownership | Making | Resolving | Signing | Finishing | Wired

  ghost predicate Holds(c: Config, s: Session, k: Concern)
  {
    match k
    case Attachment => Attached(s)
    case Ownership => Owned(c, s.conversation, s.generation, s.transport.Some?, s.x, s.past)
    case Making => Made(c, s.conversation, s.generation, s.tasks.keygens, s.past)
    case Resolving => Resolutions(s.conversation, s.generation, s.transport.Some?, s.aside.resolving, s.x.remoteHello.None?, s.tasks.resolutions)
    case Signing => Signatures(c, s.conversation, s.generation, s.transport.Some? && !s.x.signatureSent, s.tasks.signs, s.past)
    case Finishing => Completions(c, s)
    case Wired => Wirings(c, s.conversation, s.generation, s.phase, s.framing, s.past)
  }

  ghost predicate Inv(c: Config, s: Session)
  {
    forall k :: Holds(c, s, k)
  }

  ghost predicate All(c: Config, s: Session)
  {
    Fields(c, s) && Records(c, s)
  }

  ghost predicate Fields(c: Config, s: Session)
  {
    Attached(s)
    && Owned(c, s.conversation, s.generation, s.transport.Some?, s.x, s.past)
    && Made(c, s.conversation, s.generation, s.tasks.keygens, s.past)
    && Resolutions(s.conversation, s.generation, s.transport.Some?, s.aside.resolving, s.x.remoteHello.None?, s.tasks.resolutions)
  }

  ghost predicate Records(c: Config, s: Session)
  {
    Logs(c, s) && Completions(c, s)
  }

  ghost predicate Logs(c: Config, s: Session)
  {
    Signatures(c, s.conversation, s.generation, s.transport.Some? && !s.x.signatureSent, s.tasks.signs, s.past)
    && Wirings(c, s.conversation, s.generation, s.phase, s.framing, s.past)
  }

  lemma Part(c: Config, s: Session, k: Concern)
    requires Inv(c, s)
    ensures Holds(c, s, k)
  {
  }

  lemma Open(c: Config, s: Session)
    requires Inv(c, s)
    ensures All(c, s)
  {
    Part(c, s, Attachment);
    Part(c, s, Ownership);
    Part(c, s, Making);
    Part(c, s, Resolving);
    Part(c, s, Signing);
    Part(c, s, Finishing);
    Part(c, s, Wired);
  }

  lemma Close(c: Config, s: Session)
    requires All(c, s)
    ensures Inv(c, s)
  {
  }

  // ----- Small steps keep it -----

  lemma ThrowKeeps(c: Config, s: Session, gen: nat, authFailure: bool)
    requires Inv(c, s) && gen <= s.generation
    ensures Inv(c, Throw(s, gen, authFailure))
  {
    forall k ensures Holds(c, Throw(s, gen, authFailure), k) {
      Part(c, s, k);
    }
  }

  lemma BailKeeps(c: Config, s: Session, h: nat)
    requires Inv(c, s)
    ensures Inv(c, Bail(s, h))
  {
    forall k ensures Holds(c, Bail(s, h), k) {
      Part(c, s, k);
    }
  }

  lemma TeardownKeeps(c: Config, s: Session, phase: Phase)
    requires Inv(c, s) && !Running(phase)
    ensures Inv(c, Teardown(s).(phase := phase))
  {
    GoodStays(c, s, Teardown(s).past);
    forall k ensures Holds(c, Teardown(s).(phase := phase), k) {
      Part(c, s, k);
    }
  }

  /** `q` has learnt more about the attaches than `p`, and contradicts nothing. */
  predicate Extends(p: Past, q: Past)
  {
    (forall g :: g in p.pairs ==> g in q.pairs && q.pairs[g] == p.pairs[g])
    && (forall g :: g in p.hellos ==> g in q.hellos && q.hellos[g] == p.hellos[g])
    && (forall g :: g in p.accepted ==> g in q.accepted && q.accepted[g] == p.accepted[g])
    && (forall g :: g in p.attaches ==> g in q.attaches && q.attaches[g] == p.attaches[g])
    && (forall g :: g in p.lookups ==> g in q.lookups && q.lookups[g] == p.lookups[g])
  }

  lemma KeysStay(c: Config, p: Past, q: Past, gen: nat, t: Transcript, keys: SessionKeys)
    requires Extends(p, q) && KeysOf(c, p, gen, t, keys)
    ensures KeysOf(c, q, gen, t, keys)
  {
  }

  /** Everything in flight and on record is good by the history `q`. */
  ghost predicate StillGood(c: Config, s: Session, q: Past)
  {
    (forall h :: h in s.tasks.signs ==> IsTranscript(c, s.conversation, q, s.tasks.signs[h].gen, s.tasks.signs[h].transcript))
    && (forall i :: 0 <= i < |s.past.sent| ==> GoodSignature(c, s.conversation, q, s.past.sent[i]))
    && (forall h :: h in s.tasks.completions ==> Completing(c, s.conversation, q, s.tasks.completions[h]))
    && (forall i :: 0 <= i < |s.past.wired| ==> Whole(c, s.conversation, q, s.past.wired[i]))
  }

  /** What the history already records stays good when it grows. */
  lemma GoodStays(c: Config, s: Session, q: Past)
    requires Inv(c, s) && Extends(s.past, q)
    ensures StillGood(c, s, q)
  {
    Part(c, s, Signing);
    Part(c, s, Finishing);
    Part(c, s, Wired);
    forall h | h in s.tasks.completions ensures Completing(c, s.conversation, q, s.tasks.completions[h]) {
      CompletingStays(c, s.conversation, s.past, q, s.tasks.completions[h]);
    }
    forall i | 0 <= i < |s.past.wired| ensures Whole(c, s.conversation, q, s.past.wired[i]) {
      assert Whole(c, s.conversation, s.past, s.past.wired[i]);
      KeysStay(c, s.past, q, s.past.wired[i].gen, s.past.wired[i].transcript, s.past.wired[i].keys);
    }
    forall i | 0 <= i < |s.past.sent| ensures GoodSignature(c, s.conversation, q, s.past.sent[i]) {
      assert GoodSignature(c, s.conversation, s.past, s.past.sent[i]);
    }
    forall h | h in s.tasks.signs ensures IsTranscript(c, s.conversation, q, s.tasks.signs[h].gen, s.tasks.signs[h].transcript) {
      assert IsTranscript(c, s.conversation, s.past, s.tasks.signs[h].gen, s.tasks.signs[h].transcript);
    }
  }

  lemma CompletingStays(c: Config, conversation: Option<Bytes>, p: Past, q: Past, t: Completion)
    requires Extends(p, q) && Completing(c, conversation, p, t)
    ensures Completing(c, conversation, q, t)
  {
    match t.stage
    case Deriving(_, keys) => KeysStay(c, p, q, t.gen, t.transcript, keys);
    case Numbering(_, keys) => KeysStay(c, p, q, t.gen, t.transcript, keys);
    case Storing(keys) => KeysStay(c, p, q, t.gen, t.transcript, keys);
    case _ =>
  }

  lemma AttachKeepsRecords(c: Config, s: Session, transport: int, k: Concern)
    requires Inv(c, s) && (k == Signing || k == Finishing || k == Wired)
    ensures Holds(c, Attach(c, s, transport), k)
  {
    var n := Attach(c, s, transport);
    Part(c, s, k);
    if n.generation != s.generation {
      Part(c, s, Attachment);
      GensOld(c, s);
      GoodStays(c, s, n.past);
    }
  }

  lemma AttachKeeps(c: Config, s: Session, transport: int)
    requires Inv(c, s)
    ensures Inv(c, Attach(c, s, transport))
  {
    forall k ensures Holds(c, Attach(c, s, transport), k) {
      Part(c, s, k);
      if k == Signing || k == Finishing || k == Wired {
        AttachKeepsRecords(c, s, transport, k);
      } else {
        Part(c, s, Attachment);
        Part(c, s, Ownership);
        Part(c, s, Making);
      }
    }
  }

  /** Nothing in the history or in flight is of a later attach than the latest. */
  lemma GensOld(c: Config, s: Session)
    requires Inv(c, s)
    ensures forall h :: h in s.tasks.keygens ==> s.tasks.keygens[h] <= s.generation
    ensures forall h :: h in s.tasks.signs ==> s.tasks.signs[h].gen <= s.generation
    ensures forall h :: h in s.tasks.completions ==> s.tasks.completions[h].gen <= s.generation
    ensures forall h :: h in s.tasks.resolutions ==> s.tasks.resolutions[h].gen <= s.generation
    ensures forall h :: h in s.tasks.throwing ==> s.tasks.throwing[h].gen <= s.generation
    ensures forall i :: 0 <= i < |s.past.wired| ==> s.past.wired[i].gen <= s.generation
    ensures forall i :: 0 <= i < |s.past.sent| ==> s.past.sent[i].gen <= s.generation
  {
    Open(c, s);
    forall h | h in s.tasks.completions ensures s.tasks.completions[h].gen <= s.generation {
      assert Completing(c, s.conversation, s.past, s.tasks.completions[h]);
    }
    forall i | 0 <= i < |s.past.wired| ensures s.past.wired[i].gen <= s.generation {
      assert Whole(c, s.conversation, s.past, s.past.wired[i]);
    }
    forall i | 0 <= i < |s.past.sent| ensures s.past.sent[i].gen <= s.generation {
      assert GoodSignature(c, s.conversation, s.past, s.past.sent[i]);
    }
  }

  /** A key pair and a session id just made, for a live attach that has no hello yet. */
  predicate Introduces(c: Config, s: Session, private: Bytes, sessionId: Bytes)
  {
    ConfigOk(c) && s.transport.Some? && s.generation !in s.past.hellos
    && (forall h :: h in s.tasks.keygens ==> s.tasks.keygens[h] != s.generation)
    && |sessionId| == Codec.SESSION_ID_BYTES && Codec.PublicKeyFault(c.onCurve, c.p.public(private)).None?
  }

  lemma IntroducedKeepsRecords(c: Config, s: Session, private: Bytes, sessionId: Bytes, k: Concern)
    requires Inv(c, s) && Introduces(c, s, private, sessionId) && (k == Signing || k == Finishing || k == Wired)
    ensures Holds(c, Introduced(c, s, private, sessionId), k)
  {
    var n := Introduced(c, s, private, sessionId);
    Part(c, s, k);
    assert Extends(s.past, n.past) by {
      Part(c, s, Making);
    }
    GoodStays(c, s, n.past);
  }

  lemma IntroducedKeeps(c: Config, s: Session, private: Bytes, sessionId: Bytes)
    requires Inv(c, s) && Introduces(c, s, private, sessionId)
    ensures Inv(c, Introduced(c, s, private, sessionId))
  {
    Part(c, s, Making);
    forall k ensures Holds(c, Introduced(c, s, private, sessionId), k) {
      Part(c, s, k);
      if k == Signing || k == Finishing || k == Wired {
        IntroducedKeepsRecords(c, s, private, sessionId, k);
      }
    }
  }

  /** A valid hello for a live attach whose conversation is known and that accepted none yet. */
  predicate Accepts(c: Config, s: Session, hello: Hello)
  {
    s.transport.Some? && s.conversation.Some? && s.x.remoteHello.None? && HelloOk(c.onCurve, hello)
    && forall h :: h in s.tasks.resolutions ==> s.tasks.resolutions[h].gen != s.generation
  }

  lemma AcceptKeeps(c: Config, s: Session, hello: Hello)
    requires Inv(c, s) && Accepts(c, s, hello)
    ensures Inv(c, AcceptHello(s, s.generation, hello))
  {
    Part(c, s, Ownership);
    GoodStays(c, s, AcceptHello(s, s.generation, hello).past);
    forall k ensures Holds(c, AcceptHello(s, s.generation, hello), k) {
      Part(c, s, k);
    }
  }

  lemma MaybeSignKeeps(c: Config, s: Session)
    requires Inv(c, s)
    ensures Inv(c, MaybeSign(c, s))
  {
    if !s.x.signatureSent && s.x.localHello.Some? && s.x.remoteHello.Some? && s.conversation.Some? {
      var r := BuildTranscript(s.conversation.value, s.x.localHello.value, s.x.remoteHello.value, c.authMode);
      if r.Ok? {
        SigningKeeps(c, s, r.value);
      } else {
        ThrowKeeps(c, s, s.generation, false);
      }
    }
  }

  lemma SigningKeeps(c: Config, s: Session, t: Transcript)
    requires Inv(c, s) && s.x.localHello.Some? && s.x.remoteHello.Some? && s.conversation.Some?
    requires BuildTranscript(s.conversation.value, s.x.localHello.value, s.x.remoteHello.value, c.authMode) == Ok(t)
    ensures Inv(c, StartSigning(s, t))
  {
    assert IsTranscript(c, s.conversation, s.past, s.generation, t) && (s.x.transcript.Some? ==> s.x.transcript.value == t) by {
      Part(c, s, Ownership);
    }
    forall k ensures Holds(c, StartSigning(s, t), k) {
      Part(c, s, k);
    }
  }

  lemma VerifyPeerKeeps(c: Config, s: Session, signature: Bytes)
    requires Inv(c, s) && s.transport.Some?
    ensures Inv(c, VerifyPeer(s, signature))
  {
    if !s.x.completing {
      LatchKeeps(c, s);
      if s.x.transcript.Some? {
        NoneLive(c, s);
        CheckingKeeps(c, Latched(s), Completion(s.generation, s.x.transcript.value, CheckingSignature(signature)));
      } else {
        ThrowKeeps(c, Latched(s), s.generation, false);
      }
    }
  }

  lemma NoneLive(c: Config, s: Session)
    requires Inv(c, s) && !s.x.completing && s.x.transcript.Some?
    ensures forall h :: h in s.tasks.completions ==> !Live(s, s.tasks.completions[h].gen)
    ensures s.phase == Handshaking && s.x.ephemeral.Some? && s.x.localHello.Some? && s.x.remoteHello.Some? && s.conversation.Some?
    ensures s.generation !in s.past.lookups
  {
    Open(c, s);
    forall h | h in s.tasks.completions ensures !Live(s, s.tasks.completions[h].gen) {
      if Live(s, s.tasks.completions[h].gen) {
        assert false;
      }
    }
  }

  lemma LatchKeeps(c: Config, s: Session)
    requires Inv(c, s) && s.transport.Some?
    ensures Inv(c, Latched(s))
  {
    forall k ensures Holds(c, Latched(s), k) {
      Part(c, s, k);
    }
  }

  /** A completion may be suspended (again) under this task when no other one is live and it fits. */
  ghost predicate MayPlace(c: Config, s: Session, t: Completion, phase: Phase)
  {
    Live(s, t.gen) && (s.phase == Handshaking || s.phase == Verifying)
    && InPhase(phase, s.x, s.past.lookups, t) && StageOk(c, s.past, t)
    && forall h :: h in s.tasks.completions ==> !Live(s, s.tasks.completions[h].gen)
  }

  function Placed(s: Session, h: nat, t: Completion, phase: Phase, next: nat): Session
  {
    s.(phase := phase, tasks := s.tasks.(completions := s.tasks.completions[h := t], next := next))
  }

  lemma PlacedKeeps(c: Config, s: Session, h: nat, t: Completion, phase: Phase, next: nat)
    requires Inv(c, s) && MayPlace(c, s, t, phase) && h < next && s.tasks.next <= next
    ensures Inv(c, Placed(s, h, t, phase, next))
  {
    Part(c, s, Ownership);
    forall k ensures Holds(c, Placed(s, h, t, phase, next), k) {
      Part(c, s, k);
    }
  }

  lemma CheckingKeeps(c: Config, s: Session, t: Completion)
    requires Inv(c, s) && t.gen == s.generation && t.stage.CheckingSignature? && MayPlace(c, s, t, s.phase)
    ensures Inv(c, Checking(s, t))
  {
    PlacedKeeps(c, s, s.tasks.next, t, s.phase, s.tasks.next + 1);
  }

  lemma SignDoneKeeps(c: Config, s: Session, h: nat)
    requires Inv(c, s) && h in s.tasks.signs
    ensures Inv(c, SignDone(s, h))
  {
    var t := s.tasks.signs[h];
    var ended := s.(tasks := s.tasks.(signs := s.tasks.signs - {h}));
    EndSignKeeps(c, s, h);
    if !Superseded(s, t.gen) && !s.x.signatureSent {
      SignIs(c, s, h);
      SentKeeps(c, ended, SentSignature(t.gen, s.transport.value, t.transcript));
    }
  }

  lemma SignIs(c: Config, s: Session, h: nat)
    requires Inv(c, s) && h in s.tasks.signs
    ensures IsTranscript(c, s.conversation, s.past, s.tasks.signs[h].gen, s.tasks.signs[h].transcript)
  {
    Part(c, s, Signing);
  }

  lemma EndSignKeeps(c: Config, s: Session, h: nat)
    requires Inv(c, s)
    ensures Inv(c, s.(tasks := s.tasks.(signs := s.tasks.signs - {h})))
  {
    forall k ensures Holds(c, s.(tasks := s.tasks.(signs := s.tasks.signs - {h})), k) {
      Part(c, s, k);
    }
  }

  /** A signature of the live attach, over its transcript, when none was sent. */
  predicate Sendable(c: Config, s: Session, e: SentSignature)
  {
    e.gen == s.generation && s.transport == Some(e.transport) && !s.x.signatureSent
    && IsTranscript(c, s.conversation, s.past, e.gen, e.transcript)
  }

  lemma SentKeeps(c: Config, s: Session, e: SentSignature)
    requires Inv(c, s) && Sendable(c, s, e)
    ensures Inv(c, Sent(s, e))
  {
    Part(c, s, Attachment);
    var q := Sent(s, e).past;
    assert Extends(s.past, q);
    GoodStays(c, s, q);
    forall k ensures Holds(c, Sent(s, e), k) {
      Part(c, s, k);
    }
  }

  lemma DispatchKeeps(c: Config, s: Session, bytes: Bytes, gen: nat, rejects: Bytes -> bool)
    requires Inv(c, s) && s.transport.Some? && s.conversation.Some? && gen == s.generation
    requires forall h :: h in s.tasks.resolutions ==> s.tasks.resolutions[h].gen != s.generation
    ensures Inv(c, Dispatch(c, s, bytes, gen, rejects))
  {
    if |bytes| == HELLO_BYTES {
      var r := DecodeHello(c.onCurve, bytes);
      if s.x.remoteHello.Some? || r.Err? {
        ThrowKeeps(c, s, gen, false);
      } else {
        HelloInverse(c.onCurve, r.value, bytes);
        AcceptKeeps(c, s, r.value);
        MaybeSignKeeps(c, AcceptHello(s, gen, r.value));
      }
    } else if |bytes| == SIGNATURE_MESSAGE_BYTES {
      ThrowKeeps(c, s, gen, false);
      VerifyPeerKeeps(c, s, bytes[1..]);
    } else {
      ThrowKeeps(c, s, gen, true);
      ThrowKeeps(c, s, gen, false);
      BufferKeeps(c, s, s.aside.parked, s.aside.early + [bytes]);
    }
  }

  lemma BufferKeeps(c: Config, s: Session, parked: seq<Bytes>, early: seq<Bytes>)
    requires Inv(c, s)
    ensures Inv(c, s.(aside := s.aside.(parked := parked, early := early)))
  {
    forall k ensures Holds(c, s.(aside := s.aside.(parked := parked, early := early)), k) {
      Part(c, s, k);
    }
  }

  /** A dispatch moves neither the attach nor the conversation nor any resolution. */
  lemma DispatchStays(c: Config, s: Session, bytes: Bytes, gen: nat, rejects: Bytes -> bool)
    ensures var n := Dispatch(c, s, bytes, gen, rejects);
            n.transport == s.transport && n.generation == s.generation && n.conversation == s.conversation
            && n.phase == s.phase && n.tasks.resolutions == s.tasks.resolutions
  {
    if |bytes| == HELLO_BYTES {
      var r := DecodeHello(c.onCurve, bytes);
      if r.Ok? {
        MaybeSignStays(c, AcceptHello(s, gen, r.value));
      }
    }
  }

  lemma MaybeSignStays(c: Config, s: Session)
    ensures var n := MaybeSign(c, s);
            n.transport == s.transport && n.generation == s.generation && n.conversation == s.conversation
            && n.phase == s.phase && n.tasks.resolutions == s.tasks.resolutions
  {
  }

  lemma {:induction false} ReplayKeeps(c: Config, s: Session, gen: nat, messages: seq<Bytes>, rejects: Bytes -> bool)
    requires Inv(c, s) && s.conversation.Some?
    requires forall h :: h in s.tasks.resolutions ==> s.tasks.resolutions[h].gen != s.generation
    ensures Inv(c, Replay(c, s, gen, messages, rejects))
    decreases |messages|
  {
    if messages != [] && gen == s.generation && s.transport.Some? {
      DispatchKeeps(c, s, messages[0], gen, rejects);
      DispatchStays(c, s, messages[0], gen, rejects);
      ReplayKeeps(c, Dispatch(c, s, messages[0], gen, rejects), gen, messages[1..], rejects);
    }
  }

  lemma StartResolvingKeeps(c: Config, s: Session, bytes: Bytes)
    requires Inv(c, s) && s.transport.Some? && s.conversation.None? && !s.aside.resolving
    ensures Inv(c, StartResolving(c, s, bytes))
  {
    if !c.groupLink || |bytes| != HELLO_BYTES || DecodeHello(c.onCurve, bytes).Err? {
      ThrowKeeps(c, s, s.generation, false);
    } else {
      Open(c, s);
      Close(c, StartResolving(c, s, bytes));
    }
  }

  lemma ResolvedKeeps(c: Config, s: Session, h: nat, gen: nat)
    requires Inv(c, s)
    requires gen == s.generation && s.transport.Some? ==>
               forall k :: k in s.tasks.resolutions && k != h ==> s.tasks.resolutions[k].gen != gen
    ensures Inv(c, Resolved(s, h, gen))
  {
    forall k ensures Holds(c, Resolved(s, h, gen), k) {
      Part(c, s, k);
    }
  }

  lemma ResolveStepKeeps(c: Config, s: Session, h: nat, id: Bytes, flag: bool, rejects: Bytes -> bool)
    requires Inv(c, s) && h in s.tasks.resolutions && |id| == Codec.CONVERSATION_ID_BYTES
    ensures Inv(c, ResolveStep(c, s, h, id, flag, rejects))
  {
    var t := s.tasks.resolutions[h];
    if t.gen != s.generation || s.transport.None? {
      ResolvedKeeps(c, s, h, t.gen);
    } else if t.round == 0 {
      NamedKeeps(c, s, h, id);
    } else if t.round == 1 {
      RoundKeeps(c, s, h);
    } else {
      var u := s.(authFailed := flag, tasks := s.tasks.(resolutions := s.tasks.resolutions - {h}));
      LastRoundKeeps(c, s, h, flag);
      DispatchKeeps(c, u, t.hello, t.gen, rejects);
      DispatchStays(c, u, t.hello, t.gen, rejects);
      var d := Dispatch(c, u, t.hello, t.gen, rejects);
      ReplayKeeps(c, d, t.gen, s.aside.parked, rejects);
      ReplayStays(c, d, t.gen, s.aside.parked, rejects);
      ResolvedKeeps(c, Replay(c, d, t.gen, s.aside.parked, rejects), h, t.gen);
    }
  }

  lemma {:induction false} ReplayStays(c: Config, s: Session, gen: nat, messages: seq<Bytes>, rejects: Bytes -> bool)
    ensures var n := Replay(c, s, gen, messages, rejects);
            n.transport == s.transport && n.generation == s.generation && n.conversation == s.conversation
            && n.phase == s.phase && n.tasks.resolutions == s.tasks.resolutions
    decreases |messages|
  {
    if messages != [] && gen == s.generation && s.transport.Some? {
      DispatchStays(c, s, messages[0], gen, rejects);
      ReplayStays(c, Dispatch(c, s, messages[0], gen, rejects), gen, messages[1..], rejects);
    }
  }

  lemma RoundKeeps(c: Config, s: Session, h: nat)
    requires Inv(c, s) && h in s.tasks.resolutions && s.tasks.resolutions[h].round > 0
    ensures var t := s.tasks.resolutions[h];
            Inv(c, s.(tasks := s.tasks.(resolutions := s.tasks.resolutions[h := t.(round := t.round + 1)])))
  {
    var t := s.tasks.resolutions[h];
    var n := s.(tasks := s.tasks.(resolutions := s.tasks.resolutions[h := t.(round := t.round + 1)]));
    forall k ensures Holds(c, n, k) {
      Part(c, s, k);
    }
  }

  lemma LastRoundKeeps(c: Config, s: Session, h: nat, flag: bool)
    requires Inv(c, s) && h in s.tasks.resolutions && Live(s, s.tasks.resolutions[h].gen) && s.tasks.resolutions[h].round > 0
    ensures var u := s.(authFailed := flag, tasks := s.tasks.(resolutions := s.tasks.resolutions - {h}));
            Inv(c, u) && u.conversation.Some? && forall k :: k in u.tasks.resolutions ==> u.tasks.resolutions[k].gen != s.generation
  {
    Part(c, s, Resolving);
    forall k ensures Holds(c, s.(authFailed := flag, tasks := s.tasks.(resolutions := s.tasks.resolutions - {h})), k) {
      Part(c, s, k);
    }
  }

  /** The conversation gets its id before anything was built on it. */
  lemma NamedKeeps(c: Config, s: Session, h: nat, id: Bytes)
    requires Inv(c, s) && h in s.tasks.resolutions && Live(s, s.tasks.resolutions[h].gen)
    requires s.tasks.resolutions[h].round == 0 && |id| == Codec.CONVERSATION_ID_BYTES
    ensures var t := s.tasks.resolutions[h];
            Inv(c, s.(conversation := Some(id), tasks := s.tasks.(resolutions := s.tasks.resolutions[h := t.(round := t.round + 1)])))
  {
    Part(c, s, Resolving);
    NothingBuilt(c, s);
    var t := s.tasks.resolutions[h];
    var n := s.(conversation := Some(id), tasks := s.tasks.(resolutions := s.tasks.resolutions[h := t.(round := t.round + 1)]));
    forall k ensures Holds(c, n, k) {
      Part(c, s, k);
    }
  }

  lemma NothingBuilt(c: Config, s: Session)
    requires Inv(c, s) && s.conversation.None?
    ensures s.tasks.completions == map[] && s.tasks.signs == map[] && s.past.wired == [] && s.past.sent == []
    ensures s.x.transcript.None? && s.past.accepted == map[]
  {
    Open(c, s);
    NamedFirst(c, s);
  }

  lemma NamedFirst(c: Config, s: Session)
    requires All(c, s)
    ensures s.past.wired != [] || s.past.sent != [] ==> s.conversation.Some?
    ensures (exists h :: h in s.tasks.completions) || (exists h :: h in s.tasks.signs) ==> s.conversation.Some?
  {
    if s.past.wired != [] {
      assert Whole(c, s.conversation, s.past, s.past.wired[0]);
    }
    if s.past.sent != [] {
      assert GoodSignature(c, s.conversation, s.past, s.past.sent[0]);
    }
    if h :| h in s.tasks.completions {
      assert Completing(c, s.conversation, s.past, s.tasks.completions[h]);
    }
  }

  // ----- The completion -----

  /** The live completion moves on. */
  lemma AtKeeps(c: Config, s: Session, h: nat, stage: Stage)
    requires Inv(c, s) && Completes(s, h) && Live(s, s.tasks.completions[h].gen)
    requires !stage.CheckingSignature? && StageOk(c, s.past, s.tasks.completions[h].(stage := stage))
    requires stage.LookingUp? ==> s.tasks.completions[h].stage.CheckingSignature?
    ensures Inv(c, At(s, h, stage).(phase := Verifying))
  {
    var t := s.tasks.completions[h].(stage := stage);
    OnlyLive(c, s, h);
    BailKeeps(c, s, h);
    PlacedKeeps(c, Bail(s, h), h, t, Verifying, s.tasks.next);
    assert Bail(s, h).tasks.completions[h := t] == s.tasks.completions[h := t];
  }

  lemma VerifyDoneKeeps(c: Config, s: Session, h: nat)
    requires Inv(c, s) && Completes(s, h) && s.tasks.completions[h].stage.CheckingSignature?
    ensures Inv(c, VerifyDone(c, s, h))
  {
    var t := s.tasks.completions[h];
    BailKeeps(c, s, h);
    GensOld(c, s);
    ThrowKeeps(c, Bail(s, h), t.gen, false);
    if !Superseded(s, t.gen) && TranscriptFault(t.transcript).None?
      && c.verify(PeerIdentity(c, t.transcript), t.stage.signature, TranscriptBytes(t.transcript))
    {
      AtKeeps(c, s, h, LookingUp);
    }
  }

  /** Not superseded: still the live completion, past the signature check, on the fields it began with. */
  lemma StillIts(c: Config, s: Session, h: nat)
    requires Inv(c, s) && Completes(s, h) && !Superseded(s, s.tasks.completions[h].gen)
    ensures var t := s.tasks.completions[h];
            InPhase(s.phase, s.x, s.past.lookups, t) && s.x.transcript == Some(t.transcript) && s.x.localHello.Some?
            && t.gen in s.past.pairs && s.past.pairs[t.gen] == s.x.ephemeral.value
            && t.gen in s.past.hellos && s.past.hellos[t.gen] == s.x.localHello.value
            && IsTranscript(c, s.conversation, s.past, t.gen, t.transcript)
  {
    Open(c, s);
    assert Completing(c, s.conversation, s.past, s.tasks.completions[h]);
  }

  lemma StageHolds(c: Config, s: Session, h: nat)
    requires Inv(c, s) && Completes(s, h)
    ensures StageOk(c, s.past, s.tasks.completions[h])
  {
    Part(c, s, Finishing);
    assert Completing(c, s.conversation, s.past, s.tasks.completions[h]);
  }

  lemma DeriveKeeps(c: Config, s: Session, h: nat, known: bool, secret: Option<Bytes>)
    requires Inv(c, s) && Completes(s, h) && !Superseded(s, s.tasks.completions[h].gen)
    requires s.tasks.completions[h].stage.Exchanging?
    ensures Inv(c, Derive(c, s, h, known, secret))
  {
    StillIts(c, s, h);
    StageHolds(c, s, h);
    var t := s.tasks.completions[h];
    var peer := PeerEphemeral(c, t.transcript);
    if TranscriptFault(t.transcript).Some? || ScheduleFault(t.transcript, c.self, secret).Some?
      || |c.p.shared(s.x.ephemeral.value.private, peer)| != Codec.PUBLIC_KEY_BYTES
    {
      BailKeeps(c, s, h);
      GensOld(c, s);
      ThrowKeeps(c, Bail(s, h), t.gen, false);
    } else {
      var keys := KeysFor(c.p, t.transcript, c.self, Secret(c.p, s.x.ephemeral.value.private, peer), secret);
      assert KeysOf(c, s.past, t.gen, t.transcript, keys);
      AtKeeps(c, s, h, Deriving(known, keys));
    }
  }

  /** The store's answer goes on record once for the attach. */
  lemma NotedKeeps(c: Config, s: Session, existing: Option<Bytes>)
    requires Inv(c, s) && s.transport.Some? && s.x.completing && s.generation !in s.past.lookups
    requires forall k :: k in s.tasks.completions ==> !Live(s, s.tasks.completions[k].gen)
    ensures Inv(c, Noted(s, s.generation, existing))
  {
    var q := Noted(s, s.generation, existing).past;
    assert Extends(s.past, q);
    GoodStays(c, s, q);
    forall k ensures Holds(c, Noted(s, s.generation, existing), k) {
      Part(c, s, k);
    }
  }

  lemma LookupDoneKeeps(c: Config, s: Session, h: nat, existing: Option<Bytes>)
    requires Inv(c, s) && Completes(s, h) && s.tasks.completions[h].stage.LookingUp?
    ensures Inv(c, LookupDone(c, s, h, existing))
  {
    BailKeeps(c, s, h);
    var t := s.tasks.completions[h];
    if !Superseded(s, t.gen) {
      StillIts(c, s, h);
      StageHolds(c, s, h);
      OnlyLive(c, s, h);
      var b := Noted(Bail(s, h), t.gen, existing);
      NotedKeeps(c, Bail(s, h), existing);
      if existing.Some? && existing.value != PeerIdentity(c, t.transcript) {
        ThrowKeeps(c, b, t.gen, true);
      } else {
        var u := t.(stage := Exchanging(existing.Some?));
        PlacedKeeps(c, b, h, u, Verifying, s.tasks.next);
        var n := At(Noted(s, t.gen, existing), h, Exchanging(existing.Some?));
        assert b.tasks.completions[h := u] == n.tasks.completions;
        assert n == Placed(b, h, u, Verifying, s.tasks.next);
        if c.authMode != Codec.PAKE {
          DeriveKeeps(c, n, h, existing.Some?, None);
        }
      }
    }
  }

  lemma ExchangeStepKeeps(c: Config, s: Session, h: nat, secret: Option<Bytes>)
    requires Inv(c, s) && Completes(s, h) && s.tasks.completions[h].stage.Exchanging?
    ensures Inv(c, ExchangeStep(c, s, h, secret))
  {
    BailKeeps(c, s, h);
    if !Superseded(s, s.tasks.completions[h].gen) {
      DeriveKeeps(c, s, h, s.tasks.completions[h].stage.known, secret);
    }
  }

  lemma DeriveDoneKeeps(c: Config, s: Session, h: nat)
    requires Inv(c, s) && Completes(s, h) && s.tasks.completions[h].stage.Deriving?
    ensures Inv(c, DeriveDone(s, h))
  {
    BailKeeps(c, s, h);
    var t := s.tasks.completions[h];
    StageHolds(c, s, h);
    if !Superseded(s, t.gen) {
      StillIts(c, s, h);
      AtKeeps(c, s, h, Numbering(t.stage.known, t.stage.keys));
    }
  }

  lemma WireKeeps(c: Config, s: Session, h: nat, keys: SessionKeys)
    requires Inv(c, s) && Completes(s, h) && !Superseded(s, s.tasks.completions[h].gen)
    requires var stage := s.tasks.completions[h].stage; (stage.Numbering? || stage.Storing?) && stage.keys == keys
    ensures Inv(c, Wire(c, s, h, keys))
  {
    StillIts(c, s, h);
    StageHolds(c, s, h);
    var t := s.tasks.completions[h];
    var w := Wiring(t.gen, s.transport.value, t.transcript, s.x.localHello.value.sessionId, PeerSession(c, t.transcript), keys);
    PeerSessionIs(c, s, t.gen, t.transcript);
    Part(c, s, Attachment);
    assert Whole(c, s.conversation, s.past, w);
    OnlyLive(c, s, h);
    BailKeeps(c, s, h);
    FramedKeeps(c, Bail(s, h), w);
  }

  lemma OnlyLive(c: Config, s: Session, h: nat)
    requires Inv(c, s) && Completes(s, h) && Live(s, s.tasks.completions[h].gen)
    ensures forall k :: k in Bail(s, h).tasks.completions ==> !Live(s, s.tasks.completions[k].gen)
    ensures InPhase(s.phase, s.x, s.past.lookups, s.tasks.completions[h]) && (s.phase == Handshaking || s.phase == Verifying)
    ensures h < s.tasks.next
  {
    Part(c, s, Attachment);
    Part(c, s, Finishing);
  }

  lemma PeerSessionIs(c: Config, s: Session, gen: nat, t: Transcript)
    requires Inv(c, s) && IsTranscript(c, s.conversation, s.past, gen, t)
    ensures PeerSession(c, t) == s.past.accepted[gen].sessionId
  {
    Open(c, s);
    assert OwnHello(c, s.past, gen);
    Codec.RolesOpposite(c.self, s.past.accepted[gen].identityPublicKey);
  }

  /** A whole wiring for the live attach, whose completion has ended. */
  ghost predicate Framable(c: Config, s: Session, w: Wiring)
  {
    Live(s, w.gen) && s.phase == Verifying && s.x.completing && Whole(c, s.conversation, s.past, w)
    && forall k :: k in s.tasks.completions ==> !Live(s, s.tasks.completions[k].gen)
  }

  lemma FramedKeeps(c: Config, s: Session, w: Wiring)
    requires Inv(c, s) && Framable(c, s, w)
    ensures Inv(c, Framed(s, w))
  {
    var q := Framed(s, w).past;
    assert Extends(s.past, q);
    GoodStays(c, s, q);
    forall k ensures Holds(c, Framed(s, w), k) {
      Part(c, s, k);
    }
  }

  // ----- Every step keeps it -----

  lemma KeygenDoneKeeps(c: Config, s: Session, h: nat, private: Bytes, sessionId: Bytes)
    requires ConfigOk(c) && Inv(c, s) && h in s.tasks.keygens
    requires |sessionId| == Codec.SESSION_ID_BYTES && Codec.PublicKeyFault(c.onCurve, c.p.public(private)).None?
    ensures Inv(c, KeygenDone(c, s, h, private, sessionId))
  {
    EndKeygenKeeps(c, s, h);
    if s.tasks.keygens[h] == s.generation && s.transport.Some? {
      var ended := s.(tasks := s.tasks.(keygens := s.tasks.keygens - {h}));
      IntroducedKeeps(c, ended, private, sessionId);
      MaybeSignKeeps(c, Introduced(c, ended, private, sessionId));
    }
  }

  lemma EndKeygenKeeps(c: Config, s: Session, h: nat)
    requires Inv(c, s) && h in s.tasks.keygens
    ensures var n := s.(tasks := s.tasks.(keygens := s.tasks.keygens - {h}));
            Inv(c, n)
            && (s.tasks.keygens[h] == s.generation ==>
                  s.generation !in s.past.hellos && forall k :: k in n.tasks.keygens ==> n.tasks.keygens[k] != s.generation)
  {
    Part(c, s, Making);
    forall k ensures Holds(c, s.(tasks := s.tasks.(keygens := s.tasks.keygens - {h})), k) {
      Part(c, s, k);
    }
  }

  lemma InboundKeeps(c: Config, s: Session, bytes: Bytes, rejects: Bytes -> bool)
    requires Inv(c, s)
    ensures Inv(c, Inbound(c, s, bytes, rejects))
  {
    ThrowKeeps(c, s, s.generation, false);
    if s.phase == Handshaking || s.phase == Verifying {
      Idle(c, s);
      if s.aside.resolving {
        BufferKeeps(c, s, s.aside.parked + [bytes], s.aside.early);
      } else if s.conversation.None? {
        StartResolvingKeeps(c, s, bytes);
      } else {
        DispatchKeeps(c, s, bytes, s.generation, rejects);
      }
    }
  }

  lemma Idle(c: Config, s: Session)
    requires Inv(c, s) && Running(s.phase)
    ensures s.transport.Some?
    ensures !s.aside.resolving ==> forall h :: h in s.tasks.resolutions ==> s.tasks.resolutions[h].gen != s.generation
  {
    Open(c, s);
  }

  /** Moves that touch neither the handshake nor the history. */
  lemma OutsideKeeps(c: Config, s: Session, n: Session)
    requires Inv(c, s) && (s.phase == Waiting || s.phase == Disconnected)
    requires n == s.(phase := Signaling)
    ensures Inv(c, n)
  {
    forall k ensures Holds(c, n, k) {
      Part(c, s, k);
    }
  }

  lemma FlagsKeep(c: Config, s: Session, failed: bool, authFailed: bool, timer: bool)
    requires Inv(c, s) && (timer ==> s.aside.timer) && (failed ==> s.failed || s.transport.None?)
    ensures Inv(c, s.(failed := failed, authFailed := authFailed, aside := s.aside.(timer := timer)))
  {
    forall k ensures Holds(c, s.(failed := failed, authFailed := authFailed, aside := s.aside.(timer := timer)), k) {
      Part(c, s, k);
    }
  }

  lemma FailKeeps(c: Config, s: Session, authFailure: bool)
    requires Inv(c, s)
    ensures Inv(c, Fail(s, authFailure))
  {
    if !s.failed {
      var phase := if s.phase in {Handshaking, Verifying, Connected} then Disconnected else s.phase;
      TeardownKeeps(c, s, phase);
      FlagsKeep(c, Teardown(s).(phase := phase), true, s.authFailed || authFailure, false);
    }
  }

  lemma DeliveredKeeps(c: Config, s: Session, h: nat)
    requires Inv(c, s)
    ensures Inv(c, s.(tasks := s.tasks.(throwing := s.tasks.throwing - {h})))
  {
    forall k ensures Holds(c, s.(tasks := s.tasks.(throwing := s.tasks.throwing - {h})), k) {
      Part(c, s, k);
    }
  }

  lemma ResolutionRejectsKeeps(c: Config, s: Session, h: nat)
    requires Inv(c, s) && h in s.tasks.resolutions
    ensures Inv(c, Throw(Resolved(s, h, s.tasks.resolutions[h].gen), s.tasks.resolutions[h].gen, false))
  {
    GensOld(c, s);
    OneResolution(c, s, h);
    ResolvedKeeps(c, s, h, s.tasks.resolutions[h].gen);
    ThrowKeeps(c, Resolved(s, h, s.tasks.resolutions[h].gen), s.tasks.resolutions[h].gen, false);
  }

  lemma OneResolution(c: Config, s: Session, h: nat)
    requires Inv(c, s) && h in s.tasks.resolutions
    ensures s.tasks.resolutions[h].gen == s.generation && s.transport.Some? ==>
              forall k :: k in s.tasks.resolutions && k != h ==> s.tasks.resolutions[k].gen != s.generation
  {
    Part(c, s, Resolving);
  }

  lemma NumberDoneKeeps(c: Config, s: Session, h: nat)
    requires Inv(c, s) && Completes(s, h) && s.tasks.completions[h].stage.Numbering?
    ensures Inv(c, NumberDone(c, s, h))
  {
    var t := s.tasks.completions[h];
    BailKeeps(c, s, h);
    StageHolds(c, s, h);
    if !Superseded(s, t.gen) {
      if t.stage.known {
        WireKeeps(c, s, h, t.stage.keys);
      } else {
        AtKeeps(c, s, h, Storing(t.stage.keys));
        StillIts(c, s, h);
      }
    }
  }

  lemma StoreDoneKeeps(c: Config, s: Session, h: nat)
    requires Inv(c, s) && Completes(s, h) && s.tasks.completions[h].stage.Storing?
    ensures Inv(c, StoreDone(c, s, h))
  {
    BailKeeps(c, s, h);
    StageHolds(c, s, h);
    if !Superseded(s, s.tasks.completions[h].gen) {
      WireKeeps(c, s, h, s.tasks.completions[h].stage.keys);
    }
  }

  lemma NextKeeps(c: Config, s: Session, e: Event)
    requires ConfigOk(c) && Inv(c, s) && Enabled(c, s, e)
    ensures Inv(c, Next(c, s, e))
  {
    match e
    case PeerJoins => if s.phase == Waiting { OutsideKeeps(c, s, s.(phase := Signaling)); }
    case Attaches(transport) => AttachKeeps(c, s, transport);
    case KeygenResumes(h, private, sessionId) => KeygenDoneKeeps(c, s, h, private, sessionId);
    case Receives(bytes, rejects) => InboundKeeps(c, s, bytes, rejects);
    case SignResumes(h) => SignDoneKeeps(c, s, h);
    case VerifyResumes(h) => VerifyDoneKeeps(c, s, h);
    case LookupResumes(h, existing) => LookupDoneKeeps(c, s, h, existing);
    case ExchangeResumes(h, secret) => ExchangeStepKeeps(c, s, h, secret);
    case DeriveResumes(h) => DeriveDoneKeeps(c, s, h);
    case NumberResumes(h) => NumberDoneKeeps(c, s, h);
    case StoreResumes(h) => StoreDoneKeeps(c, s, h);
    case ResolveResumes(h, id, flag, rejects) => ResolveStepKeeps(c, s, h, id, flag, rejects);
    case KeygenRejects(h) =>
      GensOld(c, s);
      EndKeygenKeeps(c, s, h);
      ThrowKeeps(c, s.(tasks := s.tasks.(keygens := s.tasks.keygens - {h})), s.tasks.keygens[h], false);
    case SignRejects(h) =>
      GensOld(c, s);
      EndSignKeeps(c, s, h);
      ThrowKeeps(c, s.(tasks := s.tasks.(signs := s.tasks.signs - {h})), s.tasks.signs[h].gen, false);
    case CompletionRejects(h, authFailure) =>
      GensOld(c, s);
      BailKeeps(c, s, h);
      ThrowKeeps(c, Bail(s, h), s.tasks.completions[h].gen, authFailure);
    case ResolutionRejects(h) => ResolutionRejectsKeeps(c, s, h);
    case Delivered(h) =>
      DeliveredKeeps(c, s, h);
      FailKeeps(c, s.(tasks := s.tasks.(throwing := s.tasks.throwing - {h})), s.tasks.throwing[h].authFailure);
    case TimesOut =>
      FlagsKeep(c, s, s.failed, s.authFailed, false);
      FailKeeps(c, s.(aside := s.aside.(timer := false)), false);
    case Drops => if s.phase != Disconnected { TeardownKeeps(c, s, Disconnected); }
    case Retries => if s.phase == Disconnected { OutsideKeeps(c, s, s.(phase := Signaling)); }
  }

  // ----- Whole runs -----

  /** `s` is where the session stands after the steps `es`, from its start in `conversation` (none yet on
      a group link). */
  ghost predicate Reached(c: Config, conversation: Option<Bytes>, es: seq<Event>, s: Session)
    decreases |es|
  {
    if es == [] then s == Started(conversation)
    else
      var last := |es| - 1;
      exists r :: Reached(c, conversation, es[..last], r) && Enabled(c, r, es[last]) && s == Next(c, r, es[last])
  }

  lemma ReachedNext(c: Config, conversation: Option<Bytes>, es: seq<Event>, s: Session, e: Event)
    requires Reached(c, conversation, es, s) && Enabled(c, s, e)
    ensures Reached(c, conversation, es + [e], Next(c, s, e))
  {
    assert (es + [e])[..|es|] == es;
  }

  predicate StartOk(c: Config, conversation: Option<Bytes>)
  {
    ConfigOk(c) && (conversation.Some? ==> |conversation.value| == Codec.CONVERSATION_ID_BYTES)
  }

  lemma {:induction false} ReachedInv(c: Config, conversation: Option<Bytes>, es: seq<Event>, s: Session)
    requires StartOk(c, conversation) && Reached(c, conversation, es, s)
    ensures Inv(c, s)
    decreases |es|
  {
    if es == [] {
      Close(c, s);
    } else {
      var last := |es| - 1;
      var r :| Reached(c, conversation, es[..last], r) && Enabled(c, r, es[last]) && s == Next(c, r, es[last]);
      ReachedInv(c, conversation, es[..last], r);
      NextKeeps(c, r, es[last]);
    }
  }

  /** A coroutine that is not superseded runs under the latest attach, and that attach was not torn
      down; the key pair and the transport it finds are that attach's. */
  lemma NotSuperseded(c: Config, conversation: Option<Bytes>, es: seq<Event>, s: Session, gen: nat)
    requires StartOk(c, conversation) && Reached(c, conversation, es, s) && !Superseded(s, gen)
    ensures gen == s.generation && gen !in s.past.torn
    ensures gen in s.past.attaches && s.transport == Some(s.past.attaches[gen])
    ensures gen in s.past.pairs && s.x.ephemeral == Some(s.past.pairs[gen])
    ensures forall g :: g in s.past.attaches ==> g <= gen
  {
    ReachedInv(c, conversation, es, s);
    Open(c, s);
  }

  /** Wiring safety. Over any interleaving of attaches, teardowns, retries and parked coroutines, every
      sender and receiver pair was wired under one attach: its transport is the one attached, its
      transcript is built from the hello made and the hello accepted in that attach, its session ids are
      theirs, and its keys come from that attach's key pair and that transcript. A signature over that
      transcript verified under the peer's identity key, and if the store knew a key for the peer it is
      that one. No attach has two. */
  lemma WiringSafety(c: Config, conversation: Option<Bytes>, es: seq<Event>, s: Session, i: nat)
    requires StartOk(c, conversation) && Reached(c, conversation, es, s) && i < |s.past.wired|
    ensures var w := s.past.wired[i];
            w.gen in s.past.attaches && w.transport == s.past.attaches[w.gen]
            && w.gen in s.past.hellos && w.gen in s.past.accepted && w.gen in s.past.pairs && s.conversation.Some?
            && s.past.hellos[w.gen].ephemeralPublicKey == c.p.public(s.past.pairs[w.gen].private)
            && BuildTranscript(s.conversation.value, s.past.hellos[w.gen], s.past.accepted[w.gen], c.authMode) == Ok(w.transcript)
            && w.localSessionId == s.past.hellos[w.gen].sessionId && w.peerSessionId == s.past.accepted[w.gen].sessionId
            && KeysOf(c, s.past, w.gen, w.transcript, w.keys)
            && Verified(c, w.transcript) && Recognised(c, s.past, w.gen, w.transcript)
    ensures forall j :: 0 <= j < |s.past.wired| && j != i ==> s.past.wired[j].gen != s.past.wired[i].gen
  {
    ReachedInv(c, conversation, es, s);
    Open(c, s);
    assert Whole(c, s.conversation, s.past, s.past.wired[i]);
    assert OwnHello(c, s.past, s.past.wired[i].gen);
  }

  /** Signature safety: every signature sent went out on the transport of its attach and is over the
      transcript of that attach, and each attach sent at most one. */
  lemma SignatureSafety(c: Config, conversation: Option<Bytes>, es: seq<Event>, s: Session, i: nat)
    requires StartOk(c, conversation) && Reached(c, conversation, es, s) && i < |s.past.sent|
    ensures var e := s.past.sent[i];
            e.gen in s.past.attaches && e.transport == s.past.attaches[e.gen]
            && IsTranscript(c, s.conversation, s.past, e.gen, e.transcript)
    ensures forall j :: 0 <= j < |s.past.sent| && j != i ==> s.past.sent[j].gen != s.past.sent[i].gen
  {
    ReachedInv(c, conversation, es, s);
    Open(c, s);
    assert GoodSignature(c, s.conversation, s.past, s.past.sent[i]);
  }

  /** The transition validator never refuses: every step moves along the table or not at all. */
  lemma StepsAreLegal(c: Config, s: Session, e: Event)
    requires ConfigOk(c) && Inv(c, s) && Enabled(c, s, e)
    ensures Next(c, s, e).phase == s.phase || Legal(s.phase, Next(c, s, e).phase)
  {
    if e.KeygenResumes? || e.Receives? || e.ResolveResumes? || e.LookupResumes? || e.ExchangeResumes? || e.SignResumes? || e.DeriveResumes? {
      PhasesStay(c, s, e);
    }
    if e.VerifyResumes? || e.NumberResumes? || e.StoreResumes? {
      if !Superseded(s, s.tasks.completions[e.task].gen) {
        StillIts(c, s, e.task);
      }
    }
  }

  /** Where a completion that is not superseded finds the session: the move it is about to make is legal. */
  lemma ReachedLegal(c: Config, conversation: Option<Bytes>, es: seq<Event>, s: Session, e: Event)
    requires StartOk(c, conversation) && Reached(c, conversation, es, s) && Enabled(c, s, e)
    requires e.VerifyResumes? || e.NumberResumes? || e.StoreResumes?
    ensures !Superseded(s, s.tasks.completions[e.task].gen) ==>
              s.x.localHello.Some? && Legal(s.phase, if e.VerifyResumes? then Verifying else Connected)
  {
    ReachedInv(c, conversation, es, s);
    if !Superseded(s, s.tasks.completions[e.task].gen) {
      StillIts(c, s, e.task);
    }
  }

  /** Which steps move the phase at all. */
  lemma PhasesStay(c: Config, s: Session, e: Event)
    requires Enabled(c, s, e)
    requires e.KeygenResumes? || e.Receives? || e.ResolveResumes? || e.LookupResumes? || e.ExchangeResumes? || e.SignResumes? || e.DeriveResumes?
    ensures Next(c, s, e).phase == s.phase
  {
    match e
    case ResolveResumes(h, id, flag, rejects) =>
      var t := s.tasks.resolutions[h];
      var u := s.(authFailed := flag, tasks := s.tasks.(resolutions := s.tasks.resolutions - {h}));
      DispatchStays(c, u, t.hello, t.gen, rejects);
      ReplayStays(c, Dispatch(c, u, t.hello, t.gen, rejects), t.gen, s.aside.parked, rejects);
    case Receives(bytes, rejects) => DispatchStays(c, s, bytes, s.generation, rejects);
    case _ =>
  }
}
