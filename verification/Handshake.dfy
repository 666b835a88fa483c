/** The handshake of one conversation (`orchestrator/orchestrator.ts`). Each method is one stretch of
    code between two awaits; `tasks` holds the coroutines that are suspended, which a teardown does not
    stop. What a step does is given by HandshakeSpec, and what every run keeps is proved in
    HandshakeRuns. */
module Handshake {
  import opened Bytes
  import opened HandshakeCodec
  import opened HandshakeSpec
  import HandshakeRuns
  import Codec

  class Orchestrator {
    const config: Config

    var currentState: Phase
    var handshakeGeneration: nat
    var conversation: Option<Bytes>
    var transport: Option<int>
    var handshakeFailed: bool
    var authFailedCached: bool
    var ephemeral: Option<Ephemeral>
    var localHello: Option<Hello>
    var remoteHello: Option<Hello>
    var transcript: Option<Transcript>
    var localSignatureSent: bool
    var handshakeCompleting: bool
    var handshakeTimer: bool
    var groupLinkResolving: bool
    var groupLinkPendingBytes: seq<Bytes>
    var groupLinkEarlyFrames: seq<Bytes>
    var framing: Option<Wiring>
    var tasks: Tasks

    ghost var past: Past
    ghost const start: Option<Bytes>
    ghost var events: seq<Event>

    ghost function Fields(): Exchange
      reads this`ephemeral, this`localHello, this`remoteHello, this`transcript, this`localSignatureSent, this`handshakeCompleting
    {
      Exchange(ephemeral, localHello, remoteHello, transcript, localSignatureSent, handshakeCompleting)
    }

    ghost function Latches(): Aside
      reads this`handshakeTimer, this`groupLinkResolving, this`groupLinkPendingBytes, this`groupLinkEarlyFrames
    {
      Aside(handshakeTimer, groupLinkResolving, groupLinkPendingBytes, groupLinkEarlyFrames)
    }

    ghost function View(): Session
      reads this`currentState, this`handshakeGeneration, this`conversation, this`transport, this`handshakeFailed, this`authFailedCached
      reads this`ephemeral, this`localHello, this`remoteHello, this`transcript, this`localSignatureSent, this`handshakeCompleting
      reads this`handshakeTimer, this`groupLinkResolving, this`groupLinkPendingBytes, this`groupLinkEarlyFrames
      reads this`framing, this`tasks, this`past
    {
      Session(currentState, handshakeGeneration, conversation, transport, handshakeFailed, authFailedCached,
              Fields(), Latches(), framing, tasks, past)
    }

    /** The state is one that the specification reaches. */
    ghost predicate Valid()
      reads this
    {
      HandshakeRuns.StartOk(config, start) && HandshakeRuns.Reached(config, start, events, View())
    }

    /** A started orchestrator; a group link has no conversation yet. */
    constructor (config: Config, conversation: Option<Bytes>)
      requires HandshakeRuns.StartOk(config, conversation)
      ensures Valid() && View() == Started(conversation) && this.config == config
    {
      this.config, this.conversation, start := config, conversation, conversation;
      currentState, handshakeGeneration, transport, handshakeFailed, authFailedCached := Waiting, 0, None, false, false;
      ephemeral, localHello, remoteHello, transcript := None, None, None, None;
      localSignatureSent, handshakeCompleting, handshakeTimer, groupLinkResolving := false, false, false, false;
      groupLinkPendingBytes, groupLinkEarlyFrames, framing := [], [], None;
      tasks := Tasks(map[], map[], map[], map[], map[], 0);
      past := Past(map[], map[], map[], map[], map[], {}, [], []);
      events := [];
    }

    ghost method Record(e: Event)
      requires Valid() && Enabled(config, View(), e)
      modifies this`events
      ensures HandshakeRuns.Reached(config, start, events, Next(config, old(View()), e)) && View() == old(View())
    {
      HandshakeRuns.ReachedNext(config, start, events, View(), e);
      events := events + [e];
    }

    // ----- Shared pieces -----

    predicate IsSuperseded(gen: nat)
      reads this`handshakeGeneration, this`transport, this`ephemeral
    {
      gen != handshakeGeneration || transport.None? || ephemeral.None?
    }

    method Reject(generation: nat, authFailure: bool)
      modifies this`tasks
      ensures View() == Throw(old(View()), generation, authFailure)
    {
      tasks := Thrown(tasks, generation, authFailure);
    }

    method TeardownSession()
      modifies this`framing, this`transport, this`past
      modifies this`ephemeral, this`localHello, this`remoteHello, this`transcript, this`localSignatureSent, this`handshakeCompleting
      modifies this`handshakeTimer, this`groupLinkResolving, this`groupLinkPendingBytes, this`groupLinkEarlyFrames
      ensures View() == Teardown(old(View()))
    {
      ForgetHandshake();
      ClearLatches();
      ReleaseTransport();
      assert Fields() == NOTHING && Latches() == CLEAR;
    }

    method ReleaseTransport()
      modifies this`framing, this`transport, this`past
      ensures framing.None? && transport.None? && past == old(past).(torn := old(past).torn + {handshakeGeneration})
    {
      framing := None;
      transport := None;
      past := past.(torn := past.torn + {handshakeGeneration});
    }

    method ForgetHandshake()
      modifies this`ephemeral, this`localHello, this`remoteHello, this`transcript, this`localSignatureSent, this`handshakeCompleting
      ensures Fields() == NOTHING
    {
      localHello, remoteHello, ephemeral, transcript := None, None, None, None;
      localSignatureSent, handshakeCompleting := false, false;
    }

    method ClearLatches()
      modifies this`handshakeTimer, this`groupLinkResolving, this`groupLinkPendingBytes, this`groupLinkEarlyFrames
      ensures Latches() == CLEAR
    {
      handshakeTimer, groupLinkResolving, groupLinkPendingBytes, groupLinkEarlyFrames := false, false, [], [];
    }

    method FailHandshake(authFailure: bool)
      modifies this
      ensures View() == Fail(old(View()), authFailure) && events == old(events)
    {
      if handshakeFailed {
        return;
      }
      handshakeFailed := true;
      if authFailure {
        authFailedCached := true;
      }
      TeardownSession();
      if currentState == Handshaking || currentState == Verifying || currentState == Connected {
        currentState := Disconnected;
      }
    }

    method MaybeSignAndSend()
      modifies this`transcript, this`tasks
      ensures View() == MaybeSign(config, old(View()))
    {
      if localSignatureSent {
        return;
      }
      if localHello.None? || remoteHello.None? || conversation.None? {
        return;
      }
      var built := BuildTranscript(conversation.value, localHello.value, remoteHello.value, config.authMode);
      if built.Err? {
        Reject(handshakeGeneration, false);
        return;
      }
      transcript := Some(built.value);
      tasks := tasks.(signs := tasks.signs[tasks.next := Sign(handshakeGeneration, built.value)], next := tasks.next + 1);
    }

    // ----- Steps of the caller -----

    method NotifyPeerJoined()
      requires Valid()
      modifies this
      ensures Valid() && View() == Next(config, old(View()), PeerJoins)
    {
      Record(PeerJoins);
      if currentState == Waiting {
        currentState := Signaling;
      }
    }

    method AttachTransport(channel: int) returns (ok: bool)
      requires Valid()
      modifies this
      ensures Valid() && View() == Next(config, old(View()), Attaches(channel))
      ensures ok <==> (old(currentState) == Waiting || old(currentState) == Signaling) && (conversation.Some? || config.groupLink)
      ensures ok ==> currentState == Handshaking && transport == Some(channel) && handshakeGeneration == old(handshakeGeneration) + 1
                     && handshakeTimer && !handshakeFailed
                     && old(tasks).next in tasks.keygens && tasks.keygens[old(tasks).next] == handshakeGeneration
      ensures !ok ==> View() == old(View())
    {
      Record(Attaches(channel));
      if currentState != Waiting && currentState != Signaling {
        return false;
      }
      if conversation.None? && !config.groupLink {
        return false;
      }
      BeginAttach(channel);
      return true;
    }

    method BeginAttach(channel: int)
      requires currentState == Waiting || currentState == Signaling
      requires conversation.Some? || config.groupLink
      modifies this`handshakeGeneration, this`handshakeFailed, this`transport, this`currentState, this`handshakeTimer, this`past, this`tasks
      ensures View() == Attach(config, old(View()), channel)
    {
      NextGeneration(channel);
      currentState := Handshaking;
      handshakeTimer := true;
      tasks := tasks.(keygens := tasks.keygens[tasks.next := handshakeGeneration], next := tasks.next + 1);
    }

    method NextGeneration(channel: int)
      modifies this`handshakeGeneration, this`handshakeFailed, this`transport, this`past
      ensures handshakeGeneration == old(handshakeGeneration) + 1 && !handshakeFailed && transport == Some(channel)
      ensures past == old(past).(attaches := old(past).attaches[handshakeGeneration := channel])
    {
      handshakeGeneration := handshakeGeneration + 1;
      handshakeFailed := false;
      transport := Some(channel);
      past := past.(attaches := past.attaches[handshakeGeneration := channel]);
    }

    /** `leave`, `notifyPeerLeft`, `notifySignalingClosed`, and the signaling client's own callbacks. */
    method Leave()
      requires Valid()
      modifies this
      ensures Valid() && View() == Next(config, old(View()), Drops)
      ensures currentState == Disconnected
      ensures old(currentState) != Disconnected ==> transport.None? && framing.None? && Fields() == NOTHING && Latches() == CLEAR
    {
      Record(Drops);
      Disconnect();
    }

    method Disconnect()
      modifies this`framing, this`transport, this`past, this`currentState
      modifies this`ephemeral, this`localHello, this`remoteHello, this`transcript, this`localSignatureSent, this`handshakeCompleting
      modifies this`handshakeTimer, this`groupLinkResolving, this`groupLinkPendingBytes, this`groupLinkEarlyFrames
      ensures View() == Drop(old(View()))
    {
      if currentState == Disconnected {
        return;
      }
      TeardownSession();
      currentState := Disconnected;
    }

    method Retry() returns (ok: bool)
      requires Valid()
      modifies this
      ensures Valid() && View() == Next(config, old(View()), Retries)
      ensures ok <==> old(currentState) == Disconnected && conversation.Some? && !authFailedCached
      ensures currentState == if ok then Signaling else old(currentState)
    {
      Record(Retries);
      if currentState != Disconnected || conversation.None? || authFailedCached {
        return false;
      }
      currentState := Signaling;
      return true;
    }

    /** The whole-handshake timer fires. */
    method HandshakeTimeout()
      requires Valid() && handshakeTimer
      modifies this
      ensures Valid() && View() == Next(config, old(View()), TimesOut)
      ensures !old(handshakeFailed) ==> handshakeFailed && transport.None? && framing.None? && Fields() == NOTHING
      ensures !old(handshakeFailed) && old(currentState) in {Handshaking, Verifying, Connected} ==> currentState == Disconnected
    {
      Record(TimesOut);
      handshakeTimer := false;
      FailHandshake(false);
    }

    /** A coroutine's rejection reaches its catch. */
    method Catch(task: nat)
      requires Valid() && task in tasks.throwing
      modifies this
      ensures Valid() && View() == Next(config, old(View()), Delivered(task))
      ensures !old(handshakeFailed) ==>
                handshakeFailed && transport.None? && framing.None? && Fields() == NOTHING
                && authFailedCached == (old(authFailedCached) || old(tasks).throwing[task].authFailure)
      ensures !old(handshakeFailed) && old(currentState) in {Handshaking, Verifying, Connected} ==> currentState == Disconnected
    {
      Record(Delivered(task));
      var rejection := tasks.throwing[task];
      tasks := tasks.(throwing := tasks.throwing - {task});
      FailHandshake(rejection.authFailure);
    }

    // ----- Inbound messages -----

    /** `handleInbound`; `rejects` says which bytes the parts outside this model refuse. */
    method HandleInbound(bytes: Bytes, rejects: Bytes -> bool)
      requires Valid()
      modifies this
      ensures Valid() && View() == Next(config, old(View()), Receives(bytes, rejects))
    {
      Record(Receives(bytes, rejects));
      Accept(bytes, rejects);
    }

    method Accept(bytes: Bytes, rejects: Bytes -> bool)
      modifies this`groupLinkResolving, this`groupLinkPendingBytes
      modifies this`remoteHello, this`transcript, this`handshakeCompleting, this`groupLinkEarlyFrames, this`tasks, this`past
      ensures View() == Inbound(config, old(View()), bytes, rejects)
    {
      if currentState == Connected {
        if rejects(bytes) {
          Reject(handshakeGeneration, false);
        }
        return;
      }
      if currentState != Handshaking && currentState != Verifying {
        return;
      }
      if groupLinkResolving {
        if |groupLinkPendingBytes| >= MAX_GROUP_LINK_PARKED_MESSAGES {
          Reject(handshakeGeneration, false);
        } else {
          groupLinkPendingBytes := groupLinkPendingBytes + [bytes];
        }
        return;
      }
      if conversation.None? {
        ResolveGroupLinkConversation(bytes);
        return;
      }
      DispatchHandshakeMessage(bytes, handshakeGeneration, rejects);
    }

    method ResolveGroupLinkConversation(bytes: Bytes)
      modifies this`groupLinkResolving, this`tasks
      ensures View() == StartResolving(config, old(View()), bytes)
    {
      if !config.groupLink || |bytes| != HELLO_BYTES || DecodeHello(config.onCurve, bytes).Err? {
        Reject(handshakeGeneration, false);
        return;
      }
      groupLinkResolving := true;
      tasks := tasks.(resolutions := tasks.resolutions[tasks.next := Resolution(handshakeGeneration, bytes, 0)], next := tasks.next + 1);
    }

    method DispatchHandshakeMessage(bytes: Bytes, generation: nat, rejects: Bytes -> bool)
      modifies this`remoteHello, this`transcript, this`handshakeCompleting, this`groupLinkEarlyFrames, this`tasks, this`past
      ensures View() == Dispatch(config, old(View()), bytes, generation, rejects)
    {
      if |bytes| == HELLO_BYTES {
        HandleHello(bytes, generation);
        return;
      }
      if |bytes| == SIGNATURE_MESSAGE_BYTES {
        if bytes[0] != Codec.PROTOCOL_VERSION {
          Reject(generation, false);
        } else if generation == handshakeGeneration {
          VerifyPeerAndComplete(bytes[1..]);
        }
        return;
      }
      if |bytes| == PAKE_MESSAGE_BYTES || |bytes| == PAKE_CONFIRM_MESSAGE_BYTES {
        if rejects(bytes) {
          Reject(generation, true);
        }
        return;
      }
      if config.groupLink && |groupLinkEarlyFrames| < MAX_GROUP_LINK_PARKED_MESSAGES {
        groupLinkEarlyFrames := groupLinkEarlyFrames + [bytes];
        return;
      }
      Reject(generation, false);
    }

    /** The peer's hello is accepted once per handshake. */
    method HandleHello(bytes: Bytes, generation: nat)
      requires |bytes| == HELLO_BYTES
      modifies this`remoteHello, this`transcript, this`tasks, this`past
      ensures forall rejects :: View() == Dispatch(config, old(View()), bytes, generation, rejects)
    {
      if remoteHello.Some? {
        Reject(generation, false);
        return;
      }
      var hello := DecodeHello(config.onCurve, bytes);
      if hello.Err? {
        Reject(generation, false);
        return;
      }
      if generation != handshakeGeneration {
        return;
      }
      remoteHello := Some(hello.value);
      past := past.(accepted := past.accepted[generation := hello.value]);
      MaybeSignAndSend();
    }

    /** `verifyPeerAndComplete` up to its first await: the latch comes first. */
    method VerifyPeerAndComplete(signature: Bytes)
      modifies this`handshakeCompleting, this`tasks
      ensures View() == VerifyPeer(old(View()), signature)
    {
      if handshakeCompleting {
        return;
      }
      handshakeCompleting := true;
      if localHello.None? || remoteHello.None? || transcript.None? || conversation.None? || ephemeral.None? || transport.None? {
        Reject(handshakeGeneration, false);
        return;
      }
      var t := Completion(handshakeGeneration, transcript.value, CheckingSignature(signature));
      tasks := tasks.(completions := tasks.completions[tasks.next := t], next := tasks.next + 1);
    }

    // ----- Coroutines that resume -----

    method KeysGenerated(task: nat, private: Bytes, sessionId: Bytes)
      requires Valid() && Enabled(config, View(), KeygenResumes(task, private, sessionId))
      modifies this
      ensures Valid() && View() == Next(config, old(View()), KeygenResumes(task, private, sessionId))
    {
      Record(KeygenResumes(task, private, sessionId));
      FinishKeys(task, private, sessionId);
    }

    method FinishKeys(task: nat, private: Bytes, sessionId: Bytes)
      requires task in tasks.keygens
      modifies this`tasks, this`ephemeral, this`localHello, this`past, this`transcript
      ensures View() == KeygenDone(config, old(View()), task, private, sessionId)
    {
      var generation := tasks.keygens[task];
      tasks := tasks.(keygens := tasks.keygens - {task});
      if generation != handshakeGeneration || transport.None? {
        return;
      }
      Introduce(private, sessionId);
      MaybeSignAndSend();
    }

    method Introduce(private: Bytes, sessionId: Bytes)
      modifies this`ephemeral, this`localHello, this`past
      ensures View() == Introduced(config, old(View()), private, sessionId)
    {
      var pair := Ephemeral(private, config.p.public(private));
      var hello := Hello(Codec.PROTOCOL_VERSION, config.self, pair.public, sessionId);
      ephemeral := Some(pair);
      localHello := Some(hello);
      past := past.(pairs := past.pairs[handshakeGeneration := pair], hellos := past.hellos[handshakeGeneration := hello]);
    }

    method TranscriptSigned(task: nat)
      requires Valid() && task in tasks.signs
      modifies this
      ensures Valid() && View() == Next(config, old(View()), SignResumes(task))
    {
      Record(SignResumes(task));
      SendSignature(task);
    }

    method SendSignature(task: nat)
      requires task in tasks.signs
      modifies this`tasks, this`past, this`localSignatureSent
      ensures View() == SignDone(old(View()), task)
    {
      var t := tasks.signs[task];
      tasks := tasks.(signs := tasks.signs - {task});
      if IsSuperseded(t.gen) || localSignatureSent {
        return;
      }
      past := past.(sent := past.sent + [SentSignature(t.gen, transport.value, t.transcript)]);
      localSignatureSent := true;
    }

    /** One await of the group link's resolution returns. */
    method Resolve(task: nat, id: Bytes, flag: bool, rejects: Bytes -> bool)
      requires Valid() && Enabled(config, View(), ResolveResumes(task, id, flag, rejects))
      modifies this
      ensures Valid() && View() == Next(config, old(View()), ResolveResumes(task, id, flag, rejects))
    {
      Record(ResolveResumes(task, id, flag, rejects));
      ResolveRound(task, id, flag, rejects);
    }

    method ResolveRound(task: nat, id: Bytes, flag: bool, rejects: Bytes -> bool)
      requires task in tasks.resolutions
      modifies this`conversation, this`authFailedCached
      modifies this`remoteHello, this`transcript, this`handshakeCompleting, this`groupLinkEarlyFrames, this`tasks, this`past
      modifies this`groupLinkResolving, this`groupLinkPendingBytes
      ensures View() == ResolveStep(config, old(View()), task, id, flag, rejects)
    {
      var t := tasks.resolutions[task];
      if t.gen != handshakeGeneration || transport.None? {
        EndResolution(task, t.gen);
        return;
      }
      if t.round == 0 {
        conversation := Some(id);
        tasks := tasks.(resolutions := tasks.resolutions[task := t.(round := t.round + 1)]);
        return;
      }
      if t.round == 1 {
        tasks := tasks.(resolutions := tasks.resolutions[task := t.(round := t.round + 1)]);
        return;
      }
      BeginRelease(task, flag);
      ReleaseParked(task, t, rejects);
    }

    method BeginRelease(task: nat, flag: bool)
      modifies this`authFailedCached, this`tasks
      ensures var was := old(View());
              View() == was.(authFailed := flag, tasks := was.tasks.(resolutions := was.tasks.resolutions - {task}))
    {
      authFailedCached := flag;
      tasks := tasks.(resolutions := tasks.resolutions - {task});
    }

    /** The hello that started the resolution and the parked messages are dispatched, in order. */
    method ReleaseParked(task: nat, t: Resolution, rejects: Bytes -> bool)
      modifies this`remoteHello, this`transcript, this`handshakeCompleting, this`groupLinkEarlyFrames, this`tasks, this`past
      modifies this`groupLinkResolving, this`groupLinkPendingBytes
      ensures View() == Release(config, old(View()), task, t, rejects)
    {
      var parked := groupLinkPendingBytes;
      DispatchHandshakeMessage(t.hello, t.gen, rejects);
      ReplayParked(t.gen, parked, rejects);
      EndResolution(task, t.gen);
    }

    method ReplayParked(generation: nat, parked: seq<Bytes>, rejects: Bytes -> bool)
      modifies this`remoteHello, this`transcript, this`handshakeCompleting, this`groupLinkEarlyFrames, this`tasks, this`past
      ensures View() == Replay(config, old(View()), generation, parked, rejects)
    {
      var waiting := parked;
      while waiting != []
        invariant Replay(config, View(), generation, waiting, rejects) == Replay(config, old(View()), generation, parked, rejects)
        decreases |waiting|
      {
        if generation != handshakeGeneration || transport.None? {
          return;
        }
        var next := waiting[0];
        waiting := waiting[1..];
        DispatchHandshakeMessage(next, generation, rejects);
      }
    }

    method EndResolution(task: nat, generation: nat)
      modifies this`groupLinkResolving, this`groupLinkPendingBytes, this`tasks
      ensures View() == Resolved(old(View()), task, generation)
    {
      tasks := tasks.(resolutions := tasks.resolutions - {task});
      if generation == handshakeGeneration {
        groupLinkResolving := false;
        groupLinkPendingBytes := [];
      }
    }

    // ----- verifyPeerAndComplete, await by await -----

    method EndCompletion(task: nat)
      modifies this`tasks
      ensures View() == Bail(old(View()), task)
    {
      tasks := tasks.(completions := tasks.completions - {task});
    }

    method MoveTo(task: nat, stage: Stage)
      requires task in tasks.completions
      modifies this`tasks
      ensures View() == At(old(View()), task, stage)
    {
      tasks := tasks.(completions := tasks.completions[task := tasks.completions[task].(stage := stage)]);
    }

    /** The peer's signature was checked. The validator cannot refuse the move to Verifying. */
    method SignatureVerified(task: nat)
      requires Valid() && Enabled(config, View(), VerifyResumes(task))
      modifies this
      ensures Valid() && View() == Next(config, old(View()), VerifyResumes(task))
    {
      HandshakeRuns.ReachedLegal(config, start, events, View(), VerifyResumes(task));
      Record(VerifyResumes(task));
      FinishVerifying(task);
    }

    method FinishVerifying(task: nat)
      requires task in tasks.completions && tasks.completions[task].stage.CheckingSignature?
      requires !IsSuperseded(tasks.completions[task].gen) ==> Legal(currentState, Verifying)
      modifies this`tasks, this`currentState
      ensures View() == VerifyDone(config, old(View()), task)
    {
      var t := tasks.completions[task];
      if IsSuperseded(t.gen) {
        EndCompletion(task);
        return;
      }
      var bytes := EncodeTranscript(t.transcript);
      if bytes.Err? || !config.verify(PeerIdentity(config, t.transcript), t.stage.signature, bytes.value) {
        EndCompletion(task);
        Reject(t.gen, false);
        return;
      }
      if !Legal(currentState, Verifying) {
        assert false;
      }
      MoveTo(task, LookingUp);
      currentState := Verifying;
    }

    /** `deriveSessionKeys` up to its first await. */
    method DeriveKeys(task: nat, known: bool, secret: Option<Bytes>)
      requires task in tasks.completions && !IsSuperseded(tasks.completions[task].gen)
      modifies this`tasks
      ensures View() == Derive(config, old(View()), task, known, secret)
    {
      var t := tasks.completions[task];
      var peer := PeerEphemeral(config, t.transcript);
      if transcript.None? || TranscriptFault(transcript.value).Some?
        || |config.p.shared(ephemeral.value.private, peer)| != Codec.PUBLIC_KEY_BYTES
      {
        EndCompletion(task);
        Reject(t.gen, false);
        return;
      }
      var keys, _ := DeriveSessionKeys(config.p, transcript.value, config.self, ephemeral.value.private, peer, secret);
      if keys.Err? {
        EndCompletion(task);
        Reject(t.gen, false);
      } else {
        MoveTo(task, Deriving(known, keys.value));
      }
    }

    method PeerLookedUp(task: nat, existing: Option<Bytes>)
      requires Valid() && Enabled(config, View(), LookupResumes(task, existing))
      modifies this
      ensures Valid() && View() == Next(config, old(View()), LookupResumes(task, existing))
    {
      Record(LookupResumes(task, existing));
      var t := tasks.completions[task];
      if IsSuperseded(t.gen) {
        EndCompletion(task);
        return;
      }
      past := past.(lookups := past.lookups[t.gen := existing]);
      if existing.Some? && existing.value != PeerIdentity(config, t.transcript) {
        EndCompletion(task);
        Reject(t.gen, true);
        return;
      }
      MoveTo(task, Exchanging(existing.Some?));
      if config.authMode != Codec.PAKE {
        DeriveKeys(task, existing.Some?, None);
      }
    }

    method PakeExchanged(task: nat, secret: Option<Bytes>)
      requires Valid() && Enabled(config, View(), ExchangeResumes(task, secret))
      modifies this
      ensures Valid() && View() == Next(config, old(View()), ExchangeResumes(task, secret))
    {
      Record(ExchangeResumes(task, secret));
      var t := tasks.completions[task];
      if IsSuperseded(t.gen) {
        EndCompletion(task);
      } else if secret.Some? {
        DeriveKeys(task, t.stage.known, secret);
      }
    }

    method KeysDerived(task: nat)
      requires Valid() && Enabled(config, View(), DeriveResumes(task))
      modifies this
      ensures Valid() && View() == Next(config, old(View()), DeriveResumes(task))
    {
      Record(DeriveResumes(task));
      var t := tasks.completions[task];
      if IsSuperseded(t.gen) {
        EndCompletion(task);
      } else {
        MoveTo(task, Numbering(t.stage.known, t.stage.keys));
      }
    }

    method SafetyNumberComputed(task: nat)
      requires Valid() && Enabled(config, View(), NumberResumes(task))
      modifies this
      ensures Valid() && View() == Next(config, old(View()), NumberResumes(task))
      ensures var t := old(tasks).completions[task];
              if t.gen != handshakeGeneration || transport.None? || ephemeral.None? || !t.stage.known
              then framing == old(framing) && currentState == old(currentState)
              else localHello.Some? && currentState == Connected
                   && framing == Some(Wiring(t.gen, transport.value, t.transcript, localHello.value.sessionId,
                                             PeerSession(config, t.transcript), t.stage.keys))
    {
      HandshakeRuns.ReachedLegal(config, start, events, View(), NumberResumes(task));
      Record(NumberResumes(task));
      var t := tasks.completions[task];
      if IsSuperseded(t.gen) {
        EndCompletion(task);
      } else if t.stage.known {
        WireFraming(task, t.stage.keys);
      } else {
        MoveTo(task, Storing(t.stage.keys));
      }
    }

    method PeerStored(task: nat)
      requires Valid() && Enabled(config, View(), StoreResumes(task))
      modifies this
      ensures Valid() && View() == Next(config, old(View()), StoreResumes(task))
      ensures var t := old(tasks).completions[task];
              if t.gen != handshakeGeneration || transport.None? || ephemeral.None?
              then framing == old(framing) && currentState == old(currentState)
              else localHello.Some? && currentState == Connected
                   && framing == Some(Wiring(t.gen, transport.value, t.transcript, localHello.value.sessionId,
                                             PeerSession(config, t.transcript), t.stage.keys))
    {
      HandshakeRuns.ReachedLegal(config, start, events, View(), StoreResumes(task));
      Record(StoreResumes(task));
      var t := tasks.completions[task];
      if IsSuperseded(t.gen) {
        EndCompletion(task);
      } else {
        WireFraming(task, t.stage.keys);
      }
    }

    /** The sender and the receiver are wired and the session is connected. The validator cannot refuse. */
    method WireFraming(task: nat, keys: SessionKeys)
      requires task in tasks.completions && !IsSuperseded(tasks.completions[task].gen)
      requires localHello.Some? && Legal(currentState, Connected)
      modifies this`framing, this`handshakeTimer, this`groupLinkEarlyFrames, this`currentState, this`tasks, this`past
      ensures View() == Wire(config, old(View()), task, keys)
    {
      var t := tasks.completions[task];
      var w := Wiring(t.gen, transport.value, t.transcript, localHello.value.sessionId, PeerSession(config, t.transcript), keys);
      framing := Some(w);
      past := past.(wired := past.wired + [w]);
      handshakeTimer := false;
      if !Legal(currentState, Connected) {
        assert false;
      }
      currentState := Connected;
      groupLinkEarlyFrames := [];
      EndCompletion(task);
    }

    // ----- Coroutines that fail -----

    method KeygenFailed(task: nat)
      requires Valid() && task in tasks.keygens
      modifies this
      ensures Valid() && View() == Next(config, old(View()), KeygenRejects(task))
    {
      Record(KeygenRejects(task));
      var generation := tasks.keygens[task];
      tasks := tasks.(keygens := tasks.keygens - {task});
      Reject(generation, false);
    }

    method SigningFailed(task: nat)
      requires Valid() && task in tasks.signs
      modifies this
      ensures Valid() && View() == Next(config, old(View()), SignRejects(task))
    {
      Record(SignRejects(task));
      var generation := tasks.signs[task].gen;
      tasks := tasks.(signs := tasks.signs - {task});
      Reject(generation, false);
    }

    method CompletionFailed(task: nat, authFailure: bool)
      requires Valid() && task in tasks.completions
      modifies this
      ensures Valid() && View() == Next(config, old(View()), CompletionRejects(task, authFailure))
    {
      Record(CompletionRejects(task, authFailure));
      var generation := tasks.completions[task].gen;
      EndCompletion(task);
      Reject(generation, authFailure);
    }

    method ResolutionFailed(task: nat)
      requires Valid() && task in tasks.resolutions
      modifies this
      ensures Valid() && View() == Next(config, old(View()), ResolutionRejects(task))
    {
      Record(ResolutionRejects(task));
      var generation := tasks.resolutions[task].gen;
      EndResolution(task, generation);
      Reject(generation, false);
    }
  }
}
