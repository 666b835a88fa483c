/** What a wired session proves about the peer: the handshake's authentication, over the runs of both
    sides. */
module HandshakePeers {
  import opened Bytes
  import opened HandshakeCodec
  import opened HandshakeSpec
  import opened HandshakeRuns
  import Membership
  import Codec

  // ----- One identity key signs transcripts and member lists -----

  lemma {:induction false} EntriesBound(p: Membership.Platform, members: seq<Membership.Member>)
    requires Membership.AllFit(p, members)
    ensures |Membership.EntriesBytes(p, members)| <= |members| * (Membership.MEMBER_ENTRY_FIXED_BYTES + Membership.MAX_MEMBER_DISPLAY_NAME)
  {
    if members != [] {
      EntriesBound(p, members[..|members| - 1]);
    }
  }

  /** The two kinds of signed bytes carry no tag that tells them apart. They can be equal only for a list of
      four members whose group id begins with the two version bytes of a transcript, and whose epoch ends in
      the auth mode and the first byte of a key. */
  lemma ListOrTranscript(p: Membership.Platform, groupId: Bytes, epoch: int, members: seq<Membership.Member>, t: Transcript)
    requires Membership.Writable(p, groupId, epoch, members) && TranscriptFault(t).None?
    requires Membership.BodyBytes(p, groupId, epoch, members) == TranscriptBytes(t)
    ensures groupId[0] == Codec.TRANSCRIPT_VERSION && groupId[1] == Codec.PROTOCOL_VERSION && |members| == 4
    ensures epoch % 0x10000 == t.authMode * 0x100 + t.initiatorIdentityKey[0]
  {
    EntriesBound(p, members);
    var b, u := TranscriptBytes(t), Uint32Bytes(epoch);
    var h := Membership.HeaderBytes(groupId, epoch, |members|);
    TranscriptSlices(t, b);
    assert b[..21] == h;
    assert b[0] == h[0] == groupId[0] && b[1] == h[1] == groupId[1];
    assert b[18] == h[18] == u[2] && b[19] == h[19] == u[3];
    assert b[19] == b[19..84][0];
  }

  /** A member list that was signed, of a kind no transcript is. */
  datatype SignedList = SignedList(groupId: Bytes, epoch: int, members: seq<Membership.Member>)

  predicate Distinguished(p: Membership.Platform, list: SignedList)
  {
    Membership.Writable(p, list.groupId, list.epoch, list.members)
    && (list.groupId[0] != Codec.TRANSCRIPT_VERSION || list.groupId[1] != Codec.PROTOCOL_VERSION || |list.members| != 4)
  }

  // ----- Two sides -----

  /** One orchestrator and what it has been through. */
  datatype Endpoint = Endpoint(config: Config, conversation: Option<Bytes>, events: seq<Event>, session: Session)

  ghost predicate Ran(x: Endpoint)
  {
    StartOk(x.config, x.conversation) && Reached(x.config, x.conversation, x.events, x.session)
  }

  /** All that one identity key signed: the transcripts its orchestrators sent signatures of, and lists. */
  datatype Signer = Signer(key: Bytes, ends: seq<Endpoint>, p: Membership.Platform, lists: seq<SignedList>)

  ghost predicate Honest(d: Signer)
  {
    (forall k :: 0 <= k < |d.ends| ==> Ran(d.ends[k]) && d.ends[k].config.self == d.key)
    && (forall i :: 0 <= i < |d.lists| ==> Distinguished(d.p, d.lists[i]))
  }

  predicate SentTranscript(d: Signer, b: Bytes, k: nat, j: nat)
  {
    k < |d.ends| && j < |d.ends[k].session.past.sent|
    && TranscriptFault(d.ends[k].session.past.sent[j].transcript).None?
    && TranscriptBytes(d.ends[k].session.past.sent[j].transcript) == b
  }

  predicate SentList(d: Signer, b: Bytes, i: nat)
  {
    i < |d.lists| && Membership.Writable(d.p, d.lists[i].groupId, d.lists[i].epoch, d.lists[i].members)
    && Membership.BodyBytes(d.p, d.lists[i].groupId, d.lists[i].epoch, d.lists[i].members) == b
  }

  /** The signature scheme: what verifies under `d.key` is something `d` signed. */
  ghost predicate Unforged(verify: (Bytes, Bytes, Bytes) -> bool, d: Signer)
  {
    forall signature, b :: verify(d.key, signature, b) ==> (exists k, j :: SentTranscript(d, b, k, j)) || exists i :: SentList(d, b, i)
  }

  /** `y` built, from swapped hellos, what `w` was wired on, in its attach `g`. */
  predicate Agrees(x: Endpoint, w: Wiring, y: Endpoint, g: nat)
  {
    IsTranscript(y.config, y.session.conversation, y.session.past, g, w.transcript)
    && w.gen in x.session.past.hellos && w.gen in x.session.past.accepted
    && y.session.past.hellos[g] == x.session.past.accepted[w.gen]
    && y.session.past.accepted[g] == x.session.past.hellos[w.gen]
    && y.session.conversation == x.session.conversation && y.config.authMode == x.config.authMode
  }

  /** Authentication. Whoever a wired session names as its peer took part: one of that identity's
      orchestrators sent, in one of its attaches, a signature over this very transcript, having made the
      hello this side accepted and accepted the hello this side made, for the same conversation and in the
      same auth mode. */
  lemma PeerTookPart(x: Endpoint, i: nat, d: Signer) returns (k: nat, j: nat)
    requires Ran(x) && i < |x.session.past.wired| && PeerIdentity(x.config, x.session.past.wired[i].transcript) == d.key
    requires Honest(d) && Unforged(x.config.verify, d)
    ensures k < |d.ends| && j < |d.ends[k].session.past.sent|
    ensures d.ends[k].session.past.sent[j].transcript == x.session.past.wired[i].transcript
    ensures Agrees(x, x.session.past.wired[i], d.ends[k], d.ends[k].session.past.sent[j].gen)
  {
    var w := x.session.past.wired[i];
    WiringSafety(x.config, x.conversation, x.events, x.session, i);
    var b := TranscriptBytes(w.transcript);
    var signature :| x.config.verify(d.key, signature, b);
    if l: nat :| SentList(d, b, l) {
      assert Distinguished(d.p, d.lists[l]);
      ListOrTranscript(d.p, d.lists[l].groupId, d.lists[l].epoch, d.lists[l].members, w.transcript);
    }
    k, j :| SentTranscript(d, b, k, j);
    var y := d.ends[k];
    assert Ran(y) && y.config.self == d.key;
    TranscriptInjective(w.transcript, y.session.past.sent[j].transcript);
    SignatureSafety(y.config, y.conversation, y.events, y.session, j);
    SameHellos(x, w, y, y.session.past.sent[j].gen);
  }

  lemma OwnHellos(x: Endpoint, g: nat)
    requires Ran(x) && g in x.session.past.hellos
    ensures OwnHello(x.config, x.session.past, g)
    ensures g in x.session.past.accepted ==> HelloOk(x.config.onCurve, x.session.past.accepted[g])
  {
    ReachedInv(x.config, x.conversation, x.events, x.session);
    Part(x.config, x.session, Making);
  }

  lemma SameHellos(x: Endpoint, w: Wiring, y: Endpoint, g: nat)
    requires Ran(x) && Ran(y) && PeerIdentity(x.config, w.transcript) == y.config.self
    requires IsTranscript(x.config, x.session.conversation, x.session.past, w.gen, w.transcript)
    requires IsTranscript(y.config, y.session.conversation, y.session.past, g, w.transcript)
    ensures Agrees(x, w, y, g) && x.config.self != y.config.self
  {
    OwnHellos(x, w.gen);
    OwnHellos(y, g);
    Codec.RolesOpposite(x.config.self, x.session.past.accepted[w.gen].identityPublicKey);
    Codec.RolesOpposite(y.config.self, y.session.past.accepted[g].identityPublicKey);
  }

  /** Whether the keys of `w` come from the PAKE secret `secret`, or from none. */
  predicate KeyedWith(x: Endpoint, w: Wiring, secret: Option<Bytes>)
  {
    var peer := PeerEphemeral(x.config, w.transcript);
    w.gen in x.session.past.pairs && TranscriptFault(w.transcript).None? && ScheduleFault(w.transcript, x.config.self, secret).None?
    && |x.config.p.shared(x.session.past.pairs[w.gen].private, peer)| == Codec.PUBLIC_KEY_BYTES
    && w.keys == KeysFor(x.config.p, w.transcript, x.config.self,
                         Secret(x.config.p, x.session.past.pairs[w.gen].private, peer), secret)
  }

  /** Agreement. If the peer's orchestrator was wired as well, in the attach it signed in, then both are on
      one transcript, each expects the session id the other sends under, and without a PAKE, or with the
      same PAKE secret, each one's send key is the other's receive key. */
  lemma PeersMatch(x: Endpoint, i: nat, y: Endpoint, m: nat)
    requires Ran(x) && Ran(y) && x.config.p == y.config.p && Commutes(x.config.p)
    requires i < |x.session.past.wired| && m < |y.session.past.wired|
    requires PeerIdentity(x.config, x.session.past.wired[i].transcript) == y.config.self
    requires Agrees(x, x.session.past.wired[i], y, y.session.past.wired[m].gen)
    ensures var w, v := x.session.past.wired[i], y.session.past.wired[m];
            v.transcript == w.transcript && w.peerSessionId == v.localSessionId && v.peerSessionId == w.localSessionId
            && (forall secret :: KeyedWith(x, w, secret) && KeyedWith(y, v, secret) ==>
                  w.keys.sendKey == v.keys.recvKey && w.keys.recvKey == v.keys.sendKey)
            && (x.config.authMode != Codec.PAKE ==> KeyedWith(x, w, None) && KeyedWith(y, v, None))
  {
    var w, v := x.session.past.wired[i], y.session.past.wired[m];
    WiringSafety(x.config, x.conversation, x.events, x.session, i);
    WiringSafety(y.config, y.conversation, y.events, y.session, m);
    assert v.transcript == w.transcript;
    SameHellos(x, w, y, v.gen);
    OwnHellos(x, w.gen);
    OwnHellos(y, v.gen);
    PeerFields(x, w);
    PeerFields(y, v);
    forall secret | KeyedWith(x, w, secret) && KeyedWith(y, v, secret)
      ensures w.keys.sendKey == v.keys.recvKey && w.keys.recvKey == v.keys.sendKey
    {
      KeysMatch(x.config.p, x.config.onCurve, x.session.conversation.value, x.session.past.hellos[w.gen],
                x.session.past.accepted[w.gen], x.config.authMode,
                x.session.past.pairs[w.gen].private, y.session.past.pairs[v.gen].private, secret);
    }
    if x.config.authMode != Codec.PAKE {
      NoSecret(x, i);
      NoSecret(y, m);
    }
  }

  lemma PeerFields(x: Endpoint, w: Wiring)
    requires Ran(x) && IsTranscript(x.config, x.session.conversation, x.session.past, w.gen, w.transcript)
    ensures PeerEphemeral(x.config, w.transcript) == x.session.past.accepted[w.gen].ephemeralPublicKey
    ensures |x.session.conversation.value| == Codec.CONVERSATION_ID_BYTES && IsAuthMode(x.config.authMode)
  {
    OwnHellos(x, w.gen);
    Codec.RolesOpposite(x.config.self, x.session.past.accepted[w.gen].identityPublicKey);
    ReachedInv(x.config, x.conversation, x.events, x.session);
    Part(x.config, x.session, Attachment);
  }

  lemma NoSecret(x: Endpoint, i: nat)
    requires Ran(x) && i < |x.session.past.wired| && x.config.authMode != Codec.PAKE
    ensures KeyedWith(x, x.session.past.wired[i], None)
  {
    WiringSafety(x.config, x.conversation, x.events, x.session, i);
  }
}
