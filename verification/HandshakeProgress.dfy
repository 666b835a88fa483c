/** That a handshake gets through (`orchestrator/orchestrator.ts`): where each await of a completion leads
    from any reached state, and that an attach nobody disturbs ends connected, in whatever order its
    coroutines and messages come. HandshakeRuns says what may never be wired; this says what is. */
module HandshakeProgress {
  import opened Bytes
  import opened HandshakeCodec
  import opened HandshakeSpec
  import opened HandshakeRuns
  import Codec

  // ----- Where each await leads -----

  /** The attach `gen` is the latest, and has its transport and its key pair. */
  predicate Standing(s: Session, gen: nat)
  {
    gen == s.generation && s.transport.Some? && s.x.ephemeral.Some?
  }

  /** The completion ends and nothing else moves. */
  predicate Ends(s: Session, n: Session, h: nat)
  {
    n == s.(tasks := s.tasks.(completions := s.tasks.completions - {h}))
  }

  /** The completion throws: a rejection of its attach is on its way. */
  predicate Throws(s: Session, n: Session, h: nat, authFailure: bool)
    requires Completes(s, h)
  {
    n.tasks == s.tasks.(completions := s.tasks.completions - {h}, next := s.tasks.next + 1,
                        throwing := s.tasks.throwing[s.tasks.next := Rejection(s.tasks.completions[h].gen, authFailure)])
    && n.phase == s.phase && n.framing == s.framing && n.x == s.x && n.transport == s.transport
  }

  /** The completion goes on to its next await. */
  predicate GoesOn(s: Session, n: Session, h: nat, stage: Stage)
    requires Completes(s, h)
  {
    n.tasks == s.tasks.(completions := s.tasks.completions[h := s.tasks.completions[h].(stage := stage)])
    && n.phase == Verifying && n.framing == s.framing && n.x == s.x && n.transport == s.transport
  }

  /** The completion ends with sender and receiver wired and the session connected. */
  predicate Connects(s: Session, n: Session, h: nat, w: Wiring)
  {
    n.phase == Connected && n.framing == Some(w) && n.past.wired == s.past.wired + [w]
    && n.tasks == s.tasks.(completions := s.tasks.completions - {h})
    && n.transport == s.transport && !n.aside.timer
  }

  ghost predicate Awaits(c: Config, conversation: Option<Bytes>, es: seq<Event>, s: Session, h: nat)
  {
    StartOk(c, conversation) && Reached(c, conversation, es, s) && Completes(s, h)
  }

  /** What a completion of a standing attach works on. */
  lemma Parties(c: Config, conversation: Option<Bytes>, es: seq<Event>, s: Session, h: nat)
    requires Awaits(c, conversation, es, s, h) && Standing(s, s.tasks.completions[h].gen)
    ensures var t := s.tasks.completions[h].transcript;
            s.x.localHello.Some? && s.x.remoteHello.Some? && s.x.transcript == Some(t) && TranscriptFault(t).None?
            && PeerIdentity(c, t) == s.x.remoteHello.value.identityPublicKey
            && PeerEphemeral(c, t) == s.x.remoteHello.value.ephemeralPublicKey
            && PeerSession(c, t) == s.x.remoteHello.value.sessionId
            && (forall secret: Option<Bytes> :: ScheduleFault(t, c.self, secret).None? <==> (secret.Some? <==> c.authMode == Codec.PAKE))
    ensures !s.tasks.completions[h].stage.CheckingSignature? ==> s.phase == Verifying
  {
    ReachedInv(c, conversation, es, s);
    StillIts(c, s, h);
    BothHellos(c, s);
    var local, remote := s.x.localHello.value, s.x.remoteHello.value;
    SameTranscript(c.onCurve, s.conversation.value, local, remote, c.authMode);
    Codec.RolesOpposite(local.identityPublicKey, remote.identityPublicKey);
  }

  /** Where there is a transcript, it was built from the two valid hellos of the attach. */
  lemma BothHellos(c: Config, s: Session)
    requires Inv(c, s) && s.x.transcript.Some? && ConfigOk(c)
    ensures s.x.localHello.Some? && s.x.remoteHello.Some? && s.conversation.Some? && |s.conversation.value| == Codec.CONVERSATION_ID_BYTES
    ensures HelloOk(c.onCurve, s.x.localHello.value) && HelloOk(c.onCurve, s.x.remoteHello.value)
    ensures s.x.localHello.value.identityPublicKey == c.self
    ensures BuildTranscript(s.conversation.value, s.x.localHello.value, s.x.remoteHello.value, c.authMode) == Ok(s.x.transcript.value)
  {
    Part(c, s, Attachment);
    Part(c, s, Ownership);
    Part(c, s, Making);
    assert OwnHello(c, s.past, s.generation);
  }

  /** The peer's signature was checked: the completion goes on exactly when it verifies under the identity
      key of the peer's hello. */
  lemma VerifyReturns(c: Config, conversation: Option<Bytes>, es: seq<Event>, s: Session, h: nat)
    requires Awaits(c, conversation, es, s, h) && s.tasks.completions[h].stage.CheckingSignature?
    ensures var t, n := s.tasks.completions[h], Next(c, s, VerifyResumes(h));
            if !Standing(s, t.gen) then Ends(s, n, h)
            else TranscriptFault(t.transcript).None? && s.x.remoteHello.Some?
                 && if c.verify(s.x.remoteHello.value.identityPublicKey, t.stage.signature, TranscriptBytes(t.transcript))
                    then GoesOn(s, n, h, LookingUp) else Throws(s, n, h, false)
  {
    if Standing(s, s.tasks.completions[h].gen) {
      Parties(c, conversation, es, s, h);
    }
  }

  /** The keys of `t` on the key pair and hello of the standing attach. */
  function KeysNow(c: Config, s: Session, t: Transcript, secret: Option<Bytes>): SessionKeys
    requires s.x.ephemeral.Some? && s.x.remoteHello.Some? && TranscriptFault(t).None? && ScheduleFault(t, c.self, secret).None?
    requires |c.p.shared(s.x.ephemeral.value.private, s.x.remoteHello.value.ephemeralPublicKey)| == Codec.PUBLIC_KEY_BYTES
  {
    KeysFor(c.p, t, c.self, Secret(c.p, s.x.ephemeral.value.private, s.x.remoteHello.value.ephemeralPublicKey), secret)
  }

  ghost predicate Derives(c: Config, s: Session, n: Session, h: nat, known: bool, secret: Option<Bytes>)
    requires Completes(s, h) && s.x.ephemeral.Some? && s.x.remoteHello.Some?
  {
    var t := s.tasks.completions[h].transcript;
    if |c.p.shared(s.x.ephemeral.value.private, s.x.remoteHello.value.ephemeralPublicKey)| != Codec.PUBLIC_KEY_BYTES
      || (secret.Some? && c.authMode != Codec.PAKE)
    then Throws(s, n, h, false)
    else TranscriptFault(t).None? && ScheduleFault(t, c.self, secret).None?
         && GoesOn(s, n, h, Deriving(known, KeysNow(c, s, t, secret)))
  }

  /** What the derivation needs of the transcript `t` and the fields. */
  predicate Ready(c: Config, s: Session, t: Transcript)
  {
    s.x.localHello.Some? && s.x.remoteHello.Some? && s.x.ephemeral.Some? && s.x.transcript == Some(t) && TranscriptFault(t).None?
    && PeerEphemeral(c, t) == s.x.remoteHello.value.ephemeralPublicKey && s.phase == Verifying
    && (ScheduleFault(t, c.self, None).None? <==> c.authMode != Codec.PAKE)
  }

  /** `s` with the store's answer noted and the completion moved to its exchange. */
  function Exchanged(s: Session, h: nat, existing: Option<Bytes>): Session
    requires Completes(s, h)
  {
    At(Noted(s, s.tasks.completions[h].gen, existing), h, Exchanging(existing.Some?))
  }

  lemma DeriveIs(c: Config, s: Session, h: nat, existing: Option<Bytes>)
    requires Completes(s, h) && Standing(s, s.tasks.completions[h].gen) && Ready(c, s, s.tasks.completions[h].transcript)
    requires c.authMode != Codec.PAKE
    ensures Derives(c, s, Derive(c, Exchanged(s, h, existing), h, existing.Some?, None), h, existing.Some?, None)
  {
    var t, m := s.tasks.completions[h], Exchanged(s, h, existing).tasks.completions;
    assert m - {h} == s.tasks.completions - {h};
    if |c.p.shared(s.x.ephemeral.value.private, s.x.remoteHello.value.ephemeralPublicKey)| == Codec.PUBLIC_KEY_BYTES {
      var u := t.(stage := Deriving(existing.Some?, KeysNow(c, s, t.transcript, None)));
      assert m[h := u] == s.tasks.completions[h := u];
    }
  }

  /** The store answered: a changed key is an authentication failure; otherwise keys are derived, in a PAKE
      session after its exchange. */
  lemma LookupReturns(c: Config, conversation: Option<Bytes>, es: seq<Event>, s: Session, h: nat, existing: Option<Bytes>)
    requires Awaits(c, conversation, es, s, h) && s.tasks.completions[h].stage.LookingUp?
    ensures var t, n := s.tasks.completions[h], Next(c, s, LookupResumes(h, existing));
            if !Standing(s, t.gen) then Ends(s, n, h)
            else s.x.remoteHello.Some?
                 && if existing.Some? && existing.value != s.x.remoteHello.value.identityPublicKey then Throws(s, n, h, true)
                    else if c.authMode == Codec.PAKE then GoesOn(s, n, h, Exchanging(existing.Some?))
                    else Derives(c, s, n, h, existing.Some?, None)
  {
    if Standing(s, s.tasks.completions[h].gen) {
      Parties(c, conversation, es, s, h);
      LookupIs(c, s, h, existing);
    }
  }

  lemma LookupIs(c: Config, s: Session, h: nat, existing: Option<Bytes>)
    requires Completes(s, h) && Standing(s, s.tasks.completions[h].gen) && Ready(c, s, s.tasks.completions[h].transcript)
    requires s.tasks.completions[h].stage.LookingUp?
    requires PeerIdentity(c, s.tasks.completions[h].transcript) == s.x.remoteHello.value.identityPublicKey
    ensures var n := Next(c, s, LookupResumes(h, existing));
            if existing.Some? && existing.value != s.x.remoteHello.value.identityPublicKey then Throws(s, n, h, true)
            else if c.authMode == Codec.PAKE then GoesOn(s, n, h, Exchanging(existing.Some?))
            else Derives(c, s, n, h, existing.Some?, None)
  {
    if c.authMode != Codec.PAKE && (existing.None? || existing.value == s.x.remoteHello.value.identityPublicKey) {
      DeriveIs(c, s, h, existing);
    }
  }

  /** A PAKE exchange: an await in the middle leads to the next one, the secret to the derivation. */
  lemma ExchangeReturns(c: Config, conversation: Option<Bytes>, es: seq<Event>, s: Session, h: nat, secret: Option<Bytes>)
    requires Awaits(c, conversation, es, s, h) && s.tasks.completions[h].stage.Exchanging?
    ensures var t, n := s.tasks.completions[h], Next(c, s, ExchangeResumes(h, secret));
            if !Standing(s, t.gen) then Ends(s, n, h)
            else s.x.remoteHello.Some? && if secret.None? then n == s else Derives(c, s, n, h, t.stage.known, secret)
  {
    if Standing(s, s.tasks.completions[h].gen) {
      Parties(c, conversation, es, s, h);
    }
  }

  lemma DeriveReturns(c: Config, conversation: Option<Bytes>, es: seq<Event>, s: Session, h: nat)
    requires Awaits(c, conversation, es, s, h) && s.tasks.completions[h].stage.Deriving?
    ensures var t, n := s.tasks.completions[h], Next(c, s, DeriveResumes(h));
            if !Standing(s, t.gen) then Ends(s, n, h) else GoesOn(s, n, h, Numbering(t.stage.known, t.stage.keys))
  {
    if Standing(s, s.tasks.completions[h].gen) {
      Parties(c, conversation, es, s, h);
    }
  }

  /** The wiring of a completion on the fields of its standing attach. */
  function WiringNow(s: Session, h: nat, keys: SessionKeys): Wiring
    requires Completes(s, h) && s.transport.Some? && s.x.localHello.Some? && s.x.remoteHello.Some?
  {
    Wiring(s.tasks.completions[h].gen, s.transport.value, s.tasks.completions[h].transcript,
           s.x.localHello.value.sessionId, s.x.remoteHello.value.sessionId, keys)
  }

  /** The safety number is there: a known peer is connected at once, a new one is stored first. */
  lemma NumberReturns(c: Config, conversation: Option<Bytes>, es: seq<Event>, s: Session, h: nat)
    requires Awaits(c, conversation, es, s, h) && s.tasks.completions[h].stage.Numbering?
    ensures var t, n := s.tasks.completions[h], Next(c, s, NumberResumes(h));
            if !Standing(s, t.gen) then Ends(s, n, h)
            else s.x.localHello.Some? && s.x.remoteHello.Some?
                 && if t.stage.known then Connects(s, n, h, WiringNow(s, h, t.stage.keys)) else GoesOn(s, n, h, Storing(t.stage.keys))
  {
    if Standing(s, s.tasks.completions[h].gen) {
      Parties(c, conversation, es, s, h);
    }
  }

  /** The new peer is stored: now it is connected, unless the attach was superseded. */
  lemma StoreReturns(c: Config, conversation: Option<Bytes>, es: seq<Event>, s: Session, h: nat)
    requires Awaits(c, conversation, es, s, h) && s.tasks.completions[h].stage.Storing?
    ensures var t, n := s.tasks.completions[h], Next(c, s, StoreResumes(h));
            if !Standing(s, t.gen) then Ends(s, n, h)
            else s.x.localHello.Some? && s.x.remoteHello.Some? && Connects(s, n, h, WiringNow(s, h, t.stage.keys))
  {
    if Standing(s, s.tasks.completions[h].gen) {
      Parties(c, conversation, es, s, h);
    }
  }

  // ----- Where failures lead -----

  /** A coroutine that fails, of whatever kind, is gone, and a rejection of its own attach is on its way. */
  lemma FailuresReported(c: Config, s: Session, e: Event)
    requires Enabled(c, s, e) && (e.KeygenRejects? || e.SignRejects? || e.CompletionRejects? || e.ResolutionRejects?)
    ensures var n := Next(c, s, e);
            var gen := if e.KeygenRejects? then s.tasks.keygens[e.task] else if e.SignRejects? then s.tasks.signs[e.task].gen
                       else if e.CompletionRejects? then s.tasks.completions[e.task].gen else s.tasks.resolutions[e.task].gen;
            n.tasks.throwing == s.tasks.throwing[s.tasks.next := Rejection(gen, e.CompletionRejects? && e.authFailure)]
            && (e.KeygenRejects? ==> e.task !in n.tasks.keygens) && (e.SignRejects? ==> e.task !in n.tasks.signs)
            && (e.CompletionRejects? ==> e.task !in n.tasks.completions) && (e.ResolutionRejects? ==> e.task !in n.tasks.resolutions)
  {
  }

  /** A rejection that is delivered, and the timer, end an attach that has not failed yet: nothing of it stays,
      and a session that was under way is disconnected. */
  lemma FailureEnds(c: Config, s: Session, e: Event)
    requires Enabled(c, s, e) && (e.Delivered? || e.TimesOut?) && !s.failed
    ensures var n := Next(c, s, e);
            n.failed && n.transport.None? && n.framing.None? && n.x == NOTHING && n.aside == CLEAR
            && n.phase == (if s.phase in {Handshaking, Verifying, Connected} then Disconnected else s.phase)
            && n.authFailed == (s.authFailed || (e.Delivered? && s.tasks.throwing[e.task].authFailure))
  {
  }

  /** Why a handshake message is refused: a second or unreadable hello, or one of the own identity; a signature
      of another version, or before there is a transcript; a PAKE message that its exchange refuses; and any
      other message, unless a group link may keep it for later. */
  predicate Unfit(c: Config, s: Session, bytes: Bytes, rejects: Bytes -> bool)
  {
    if |bytes| == HELLO_BYTES then
      s.x.remoteHello.Some? || DecodeHello(c.onCurve, bytes).Err?
      || (s.x.localHello.Some? && !s.x.signatureSent && DecodeHello(c.onCurve, bytes).value.identityPublicKey == c.self)
    else if |bytes| == 65 then bytes[0] != 1 || (!s.x.completing && s.x.transcript.None?)
    else if |bytes| == 35 || |bytes| == 34 then rejects(bytes)
    else !c.groupLink || |s.aside.early| >= 64
  }

  /** During the handshake a message starts a failure exactly when it is refused; any other fails nothing. */
  lemma MessageRefused(c: Config, conversation: Option<Bytes>, es: seq<Event>, s: Session, bytes: Bytes, rejects: Bytes -> bool)
    requires StartOk(c, conversation) && Reached(c, conversation, es, s)
    requires (s.phase == Handshaking || s.phase == Verifying) && s.conversation.Some? && !s.aside.resolving
    ensures var n := Next(c, s, Receives(bytes, rejects));
            if Unfit(c, s, bytes, rejects)
            then n.tasks.throwing == s.tasks.throwing[s.tasks.next
                   := Rejection(s.generation, |bytes| == 35 || |bytes| == 34)]
            else n.tasks.throwing == s.tasks.throwing
  {
    ReachedInv(c, conversation, es, s);
    Part(c, s, Attachment);
    SigningFits(c, s, bytes);
    RefusedWhen(c, s, bytes, rejects);
  }

  lemma RefusedWhen(c: Config, s: Session, bytes: Bytes, rejects: Bytes -> bool)
    requires s.transport.Some? && s.conversation.Some?
    requires s.x.transcript.Some? ==> s.x.localHello.Some? && s.x.remoteHello.Some? && s.x.ephemeral.Some?
    requires s.x.localHello.Some? && DecodeHello(c.onCurve, bytes).Ok? ==>
               (BuildTranscript(s.conversation.value, s.x.localHello.value, DecodeHello(c.onCurve, bytes).value, c.authMode).Err?
                <==> DecodeHello(c.onCurve, bytes).value.identityPublicKey == c.self)
    ensures Dispatch(c, s, bytes, s.generation, rejects).tasks.throwing
         == if Unfit(c, s, bytes, rejects)
            then s.tasks.throwing[s.tasks.next := Rejection(s.generation, |bytes| == 35 || |bytes| == 34)] else s.tasks.throwing
  {
  }

  lemma SigningFits(c: Config, s: Session, bytes: Bytes)
    requires ConfigOk(c) && Inv(c, s) && s.transport.Some?
    ensures s.x.transcript.Some? ==> s.x.localHello.Some? && s.x.remoteHello.Some? && s.x.ephemeral.Some? && s.conversation.Some?
    ensures s.x.localHello.Some? && s.conversation.Some? && DecodeHello(c.onCurve, bytes).Ok? ==>
              (BuildTranscript(s.conversation.value, s.x.localHello.value, DecodeHello(c.onCurve, bytes).value, c.authMode).Err?
               <==> DecodeHello(c.onCurve, bytes).value.identityPublicKey == c.self)
  {
    Part(c, s, Attachment);
    Part(c, s, Ownership);
    Part(c, s, Making);
    if s.x.localHello.Some? {
      assert OwnHello(c, s.past, s.generation);
    }
    if s.x.localHello.Some? && DecodeHello(c.onCurve, bytes).Ok? {
      Codec.RolesOpposite(c.self, DecodeHello(c.onCurve, bytes).value.identityPublicKey);
    }
  }
}
