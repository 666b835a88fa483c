/** What a sequenced frame becomes on the wire and at the receiver (`framing/sender.ts`, `framing/wire.ts`,
    `framing/receiver.ts`). */
module Framing {
  import opened Bytes
  import opened Manifest
  import opened SenderSpec
  import SenderRuns
  import Codec
  import Receiver
  import TransferSpec

  /** A frame that the codecs can carry. The session refuses control subtypes outside one byte, and
      `LogCarried` shows that nothing else that is sequenced falls outside. */
  predicate Carried(f: Frame)
  {
    match f
    case TextFrame(_) => true
    case ControlFrame(subtype, _) => 0 <= subtype < 256
    case CancelFrame(id) => FIRST_TRANSFER_ID <= id <= UINT32_MAX
    case ManifestFrame(id, m) => FIRST_TRANSFER_ID <= id <= UINT32_MAX && m.transferId == id && ManifestFault(m).None?
    case ChunkFrame(id, i, b) =>
      FIRST_TRANSFER_ID <= id <= UINT32_MAX && i <= UINT32_MAX && |b| <= MAX_CHUNK_PLAINTEXT_BYTES
  }

  /** The three arguments with which `sendEncryptedFrame` is called for it: frame type, ids and plaintext. */
  function TypeOf(f: Frame): int
  {
    match f
    case TextFrame(_) => Codec.TEXT
    case ControlFrame(_, _) => Codec.CONTROL
    case CancelFrame(_) => Codec.CONTROL
    case ManifestFrame(_, _) => Codec.FILE_MANIFEST
    case ChunkFrame(_, _, _) => Codec.FILE_CHUNK
  }

  /** The AAD of the frame with sequence number `sequence`. */
  function AadOf(session: Bytes, sequence: int, f: Frame): Codec.FrameAad
  {
    var (transferId, chunkId) := match f
      case ManifestFrame(id, _) => (id, 0)
      case ChunkFrame(id, i, _) => (id, i)
      case _ => (0, 0);
    Codec.FrameAad(Codec.PROTOCOL_VERSION, session, sequence, TypeOf(f), transferId, chunkId)
  }

  function PlaintextOf(f: Frame): Bytes
    requires Carried(f)
  {
    match f
    case TextFrame(b) => b
    case ControlFrame(subtype, payload) => [subtype] + payload
    case CancelFrame(id) => [6] + Uint32Bytes(id)
    case ManifestFrame(_, m) => ManifestBytes(m)
    case ChunkFrame(_, _, b) => b
  }

  // ----- Everything sequenced can be carried -----

  /** The calls past their hash drive files that a manifest can announce. */
  ghost predicate Announceable(sha: Hash, s: Sender)
  {
    (forall h :: h in s.tasks && !s.tasks[h].stage.Hashing? && !s.tasks[h].stage.Unwinding? ==>
       ManifestFault(ManifestOf(sha, s.tasks[h].transferId, s.tasks[h].file)).None?)
    && (forall k :: 0 <= k < |s.log| && !s.log[k].ControlFrame? ==> Carried(s.log[k]))
    && (forall h :: h in s.tasks ==> FIRST_TRANSFER_ID <= s.tasks[h].transferId <= UINT32_MAX)
  }

  lemma ChunkCarried(sha: Hash, id: int, file: File, i: nat)
    requires FIRST_TRANSFER_ID <= id <= UINT32_MAX && ManifestFault(ManifestOf(sha, id, file)).None? && i < ChunkCount(|file.data|)
    ensures Carried(ChunkFrame(id, i, Slice(file.data, i)))
  {
    ChunkCountBounded(|file.data|);
    ChunksTile(|file.data|, i);
  }

  /** Waking parked calls moves them neither to another transfer nor past their hash. */
  lemma {:induction false} WakeAllSame(tasks: map<int, Task>, ws: seq<Waiter>, all: bool, bad: set<int>)
    ensures SameCalls(tasks, WakeAll(tasks, ws, all, bad))
    decreases |ws|
  {
    if ws != [] {
      WakeAllSame(tasks, ws[..|ws| - 1], all, bad);
    }
  }

  lemma {:induction false} RejectSame(tasks: map<int, Task>, ws: seq<Waiter>, id: int)
    ensures SameCalls(tasks, Reject(tasks, ws, id))
    decreases |ws|
  {
    if ws != [] {
      RejectSame(tasks, ws[1..], id);
    }
  }

  ghost predicate SameCalls(tasks: map<int, Task>, woken: map<int, Task>)
  {
    forall h :: h in woken ==>
      h in tasks && woken[h].transferId == tasks[h].transferId && woken[h].file == tasks[h].file
      && (tasks[h].stage.Hashing? || tasks[h].stage.Unwinding? ==> woken[h].stage == tasks[h].stage)
  }

  lemma ChunkStepCarried(sha: Hash, s: Sender, h: int, next: nat, full: bool)
    requires Announceable(sha, s) && h in s.tasks && next < ChunkCount(|s.tasks[h].file.data|)
    requires !s.tasks[h].stage.Hashing? && !s.tasks[h].stage.Unwinding?
    ensures Announceable(sha, ChunkStep(s, h, next, full))
  {
    ChunkCarried(sha, s.tasks[h].transferId, s.tasks[h].file, next);
  }

  /** Calls that were woken and nothing sequenced. */
  lemma WokenCarried(sha: Hash, s: Sender, tasks: map<int, Task>)
    requires Announceable(sha, s) && SameCalls(s.tasks, tasks)
    ensures Announceable(sha, s.(tasks := tasks))
  {
  }

  /** A frame of no transfer is sequenced. */
  lemma SendCarried(sha: Hash, s: Sender, f: Frame)
    requires Announceable(sha, s) && (f.ControlFrame? || Carried(f))
    ensures Announceable(sha, Send(s, f))
  {
  }

  lemma HashedCarried(sha: Hash, s: Sender, h: int, ok: bool)
    requires Announceable(sha, s) && h in s.tasks && s.tasks[h].stage.Hashing?
    ensures Announceable(sha, Hashed(sha, s, h, ok))
  {
  }

  lemma DriveCarried(sha: Hash, s: Sender, h: int, id: int, file: File)
    requires Announceable(sha, s) && SenderRuns.Counts(s) && SenderRuns.Ids(s)
    ensures Announceable(sha, Drive(s, h, id, file))
  {
  }

  lemma CancelCarried(sha: Hash, s: Sender, id: int)
    requires Announceable(sha, s) && SenderRuns.Counts(s) && SenderRuns.Ids(s)
    ensures Announceable(sha, Cancel(s, id))
  {
    RejectSame(s.tasks, s.waiters, id);
    WokenCarried(sha, s, Reject(s.tasks, s.waiters, id));
    if id in s.active {
      SendCarried(sha, Cut(s, id), CancelFrame(id));
    }
  }

  lemma CallCarried(sha: Hash, s: Sender, e: Event)
    requires Announceable(sha, s) && Enabled(s, e) && (e.EncryptDone? || e.Resumes? || e.Unwinds?)
    ensures Announceable(sha, Next(sha, s, e))
  {
    match e
    case EncryptDone(h, ok, full) =>
      if ok && s.tasks[h].stage.next < ChunkCount(|s.tasks[h].file.data|) {
        ChunkStepCarried(sha, s, h, s.tasks[h].stage.next, full);
      }
    case Resumes(h, full) =>
      if s.tasks[h].stage.ok {
        ChunkStepCarried(sha, s, h, s.tasks[h].stage.next, full);
      }
    case _ =>
  }

  lemma NextCarried(sha: Hash, s: Sender, e: Event)
    requires SenderRuns.Inv(sha, s) && Announceable(sha, s) && Enabled(s, e)
    ensures Announceable(sha, Next(sha, s, e))
  {
    match e
    case SendsText(b) => SendCarried(sha, s, TextFrame(b));
    case SendsControl(subtype, b) => SendCarried(sha, s, ControlFrame(subtype, b));
    case Drives(h, id, file) => DriveCarried(sha, s, h, id, file);
    case HashDone(h, ok) => HashedCarried(sha, s, h, ok);
    case Cancels(id) => CancelCarried(sha, s, id);
    case Drains =>
      WakeAllSame(s.tasks, s.waiters, !s.tearingDown, s.cancelled);
      WokenCarried(sha, s, Drain(s).tasks);
    case TearsDown =>
      WakeAllSame(s.tasks, s.waiters, false, {});
      WokenCarried(sha, s, Teardown(s).tasks);
    case EncryptDone(_, _, _) => CallCarried(sha, s, e);
    case Resumes(_, _) => CallCarried(sha, s, e);
    case _ =>
  }

  /** Everything that is ever sequenced can be carried, but for control frames with a subtype over a byte:
      a manifest names its own transfer and passes its encoder, and ids and positions fit 32 bits. */
  lemma {:induction false} LogCarried(sha: Hash, es: seq<Event>, s: Sender)
    requires SenderRuns.Reached(sha, es, s)
    ensures Announceable(sha, s)
    ensures forall k :: 0 <= k < |s.log| && !s.log[k].ControlFrame? ==> Carried(s.log[k])
    decreases |es|
  {
    if es != [] {
      var last := |es| - 1;
      var r :| SenderRuns.Reached(sha, es[..last], r) && Enabled(r, es[last]) && s == Next(sha, r, es[last]);
      LogCarried(sha, es[..last], r);
      SenderRuns.ReachedInv(sha, es[..last], r);
      NextCarried(sha, r, es[last]);
    }
  }

  // ----- On the wire -----

  /** The frame as it is handed to `encodeWireFrame`. */
  function WireOf(session: Bytes, sequence: uint32, f: Frame, ciphertext: Bytes): Codec.WireFrame
    requires |session| == Codec.SESSION_ID_BYTES
  {
    Codec.WireFrame(Codec.FrameHeader(AadOf(session, sequence, f), |ciphertext|), Codec.Nonce(session, sequence), ciphertext)
  }

  lemma SmallManifest(m: FileManifest)
    requires ManifestFault(m).None?
    ensures |ManifestBytes(m)| <= Codec.MAX_TEXT_FRAME_BYTES - Codec.GCM_TAG_BYTES
  {
  }

  lemma AadIsSound(session: Bytes, sequence: uint32, f: Frame)
    requires Carried(f) && |session| == Codec.SESSION_ID_BYTES
    ensures Codec.AadFault(AadOf(session, sequence, f)).None?
  {
  }

  /** The `k`-th frame of the log travels: it is encoded unless it is a text or control frame whose plaintext
      and tag are over the cap, and then the peer's receiver hands its decryption exactly the AAD it was
      encrypted under. */
  lemma FrameTravels(sha: Hash, es: seq<Event>, s: Sender, k: nat, session: Bytes, ciphertext: Bytes, config: Receiver.Config)
    requires SenderRuns.Reached(sha, es, s) && k < |s.log| && Carried(s.log[k])
    requires |session| == Codec.SESSION_ID_BYTES && config.peerSessionId == session
    requires |ciphertext| == |PlaintextOf(s.log[k])| + Codec.GCM_TAG_BYTES
    ensures k <= UINT32_MAX
    ensures var f, w := s.log[k], WireOf(session, k, s.log[k], ciphertext);
            (Codec.WireFault(w).None? <==>
               f.ManifestFrame? || f.ChunkFrame? || |PlaintextOf(f)| <= Codec.MAX_TEXT_FRAME_BYTES - Codec.GCM_TAG_BYTES)
            && (Codec.WireFault(w).None? ==> Receiver.ToDecrypt(config, Codec.WireBytes(w)) == Ok(AadOf(session, k, f)))
  {
    assert k <= UINT32_MAX by {
      SenderRuns.ReachedInv(sha, es, s);
    }
    Travels(k, s.log[k], session, ciphertext, config);
  }

  lemma Travels(k: uint32, f: Frame, session: Bytes, ciphertext: Bytes, config: Receiver.Config)
    requires Carried(f) && |session| == Codec.SESSION_ID_BYTES && config.peerSessionId == session
    requires |ciphertext| == |PlaintextOf(f)| + Codec.GCM_TAG_BYTES
    ensures var w := WireOf(session, k, f, ciphertext);
            (Codec.WireFault(w).None? <==>
               f.ManifestFrame? || f.ChunkFrame? || |PlaintextOf(f)| <= Codec.MAX_TEXT_FRAME_BYTES - Codec.GCM_TAG_BYTES)
            && (Codec.WireFault(w).None? ==> Receiver.ToDecrypt(config, Codec.WireBytes(w)) == Ok(AadOf(session, k, f)))
  {
    var w := WireOf(session, k, f, ciphertext);
    AadIsSound(session, k, f);
    if f.ManifestFrame? {
      SmallManifest(f.manifest);
    }
    if Codec.WireFault(w).None? {
      Codec.WireInverse(w, Codec.WireBytes(w));
    }
  }

  // ----- At the receiver -----

  /** What the receiver is asked to do by a frame of the sender: the text, the control message, the cancel, the
      manifest as decoded, or the chunk at its own position. */
  lemma FrameAsks(config: Receiver.Config, session: Bytes, sequence: int, f: Frame, now: int)
    requires Carried(f)
    ensures Receiver.Request(config, AadOf(session, sequence, f), PlaintextOf(f), now) == match f
              case TextFrame(b) => Ok(TransferSpec.FrameText(b))
              case CancelFrame(id) => Ok(TransferSpec.Cancelled(id))
              case ManifestFrame(id, m) => Ok(TransferSpec.FrameManifest(id, Shown(config.utf8, m), now))
              case ChunkFrame(id, i, b) => Ok(TransferSpec.FrameChunk(id, i, b, now))
              case ControlFrame(subtype, payload) =>
                if !(1 <= subtype <= 6 || (config.allowGroup && (subtype == 7 || subtype == 8))) then Err(Receiver.UnknownControlSubtype)
                else if subtype != 6 then Ok(TransferSpec.FrameControl(subtype, payload))
                else if |payload| != 4 then Err(Receiver.BadCancel(Codec.InvalidLength))
                else Ok(TransferSpec.Cancelled(Uint32At(payload, 0)))
  {
    match f
    case CancelFrame(id) =>
      assert PlaintextOf(f)[1..] == Uint32Bytes(id);
      Codec.TransferCancelInverse(id, Uint32Bytes(id));
    case ControlFrame(_, payload) => assert PlaintextOf(f)[1..] == payload;
    case ManifestFrame(_, m) => DecodesEncoding(config.utf8, m);
    case _ =>
  }
}

/** From the sender's log to the receiving host, over what is handed to the receiver's decryption. */
module Delivery {
  import opened Bytes
  import opened Manifest
  import opened Framing
  import opened TransferSpec
  import opened TransferRuns
  import Codec
  import Replay
  import Receiver
  import SenderSpec
  import SenderRuns
  import SenderProgress

  // ----- The receiver as frames arrive -----

  /** A decryption resolves, with the plaintext if the frame is authentic; or a step that no frame asks for. */
  datatype Arrival =
    | Decrypted(aad: Codec.FrameAad, plaintext: Option<Bytes>, now: int)
    | Aside(event: Event)

  /** The transfers, and the sequence numbers the replay window accepted. */
  datatype Station = Station(view: View, accepted: set<nat>)

  predicate Possible(st: Station, a: Arrival)
  {
    match a
    case Decrypted(_, _, _) => st.view.hashing.None?
    case Aside(e) => Enabled(st.view, e) && (e.HashResolved? || e.Cancelled? || e.Swept? || e.TornDown?)
  }

  ghost function Take(config: Receiver.Config, st: Station, a: Arrival): Station
    requires Possible(st, a)
  {
    match a
    case Decrypted(aad, plaintext, now) =>
      Station(Receiver.Handed(config, st.accepted, st.view, aad, plaintext, now),
              Replay.AfterFrame(Receiver.REPLAY_WINDOW, st.accepted, Replay.Frame(plaintext.Some?, aad.senderSequence)))
    case Aside(e) => st.(view := Next(config.sha, st.view, e))
  }

  ghost predicate Arrives(config: Receiver.Config, st: Station, arrivals: seq<Arrival>)
    decreases |arrivals|
  {
    arrivals == [] || (Possible(st, arrivals[0]) && Arrives(config, Take(config, st, arrivals[0]), arrivals[1..]))
  }

  ghost function End(config: Receiver.Config, st: Station, arrivals: seq<Arrival>): Station
    requires Arrives(config, st, arrivals)
    decreases |arrivals|
  {
    if arrivals == [] then st else End(config, Take(config, st, arrivals[0]), arrivals[1..])
  }

  /** The frame is authentic, fresh, within the replay window, and the receiver still stands. */
  ghost predicate Released(st: Station, a: Arrival)
  {
    a.Decrypted? && a.plaintext.Some? && !st.view.tornDown && 0 <= a.aad.senderSequence <= UINT32_MAX
    && a.aad.senderSequence !in st.accepted && a.aad.senderSequence > Replay.Highest(st.accepted) - Receiver.REPLAY_WINDOW
  }

  ghost predicate ReleasedAt(config: Receiver.Config, st: Station, arrivals: seq<Arrival>, k: nat)
    requires Arrives(config, st, arrivals) && k < |arrivals|
    decreases |arrivals|
  {
    if k == 0 then Released(st, arrivals[0]) else ReleasedAt(config, Take(config, st, arrivals[0]), arrivals[1..], k - 1)
  }

  /** The step of the transfers that an arrival causes, if any. */
  ghost function Asked(config: Receiver.Config, st: Station, a: Arrival): seq<Event>
  {
    match a
    case Aside(e) => [e]
    case Decrypted(aad, plaintext, now) =>
      if Released(st, a) && Receiver.Request(config, aad, plaintext.value, now).Ok?
      then [Receiver.Request(config, aad, plaintext.value, now).value] else []
  }

  lemma TakeAsks(config: Receiver.Config, st: Station, a: Arrival)
    requires Possible(st, a)
    ensures Asked(config, st, a) == [] ==> Take(config, st, a).view == st.view
    ensures forall e :: e in Asked(config, st, a) ==>
              Asked(config, st, a) == [e] && Enabled(st.view, e) && Take(config, st, a).view == Next(config.sha, st.view, e)
    ensures Released(st, a) ==> Take(config, st, a).accepted == st.accepted + {a.aad.senderSequence}
    ensures st.accepted <= Take(config, st, a).accepted
  {
    if a.Decrypted? && 0 <= a.aad.senderSequence <= UINT32_MAX {
      Replay.FreshInWindowAccepted(Receiver.REPLAY_WINDOW, st.accepted, a.aad.senderSequence);
    }
  }

  ghost function AllAsked(config: Receiver.Config, st: Station, arrivals: seq<Arrival>): seq<Event>
    requires Arrives(config, st, arrivals)
    decreases |arrivals|
  {
    if arrivals == [] then []
    else Asked(config, st, arrivals[0]) + AllAsked(config, Take(config, st, arrivals[0]), arrivals[1..])
  }

  /** What arrives is a run of the transfers. */
  lemma {:induction false} ArrivalsRun(config: Receiver.Config, st: Station, arrivals: seq<Arrival>)
    requires Arrives(config, st, arrivals)
    ensures Trace(config.sha, st.view, AllAsked(config, st, arrivals))
    ensures After(config.sha, st.view, AllAsked(config, st, arrivals)) == End(config, st, arrivals).view
    decreases |arrivals|
  {
    if arrivals != [] {
      var n, asked := Take(config, st, arrivals[0]), Asked(config, st, arrivals[0]);
      var rest := AllAsked(config, n, arrivals[1..]);
      TakeAsks(config, st, arrivals[0]);
      ArrivalsRun(config, n, arrivals[1..]);
      if asked == [] {
        assert asked + rest == rest;
      } else {
        assert asked[0] in asked;
        assert (asked + rest)[0] == asked[0] && (asked + rest)[1..] == rest;
      }
    }
  }

  // ----- What a sender's log can cause -----

  /** The file `data` of transfer `id`, announced by the frame with number `first` of `log`. */
  datatype Shipment = Shipment(session: Bytes, log: seq<SenderSpec.Frame>, id: int, data: Bytes, first: nat)

  /** Only frames the sender encrypted are authentic. */
  ghost predicate Genuinely(session: Bytes, log: seq<SenderSpec.Frame>, a: Arrival)
  {
    match a
    case Decrypted(aad, plaintext, _) => plaintext.Some? ==> exists q: nat :: FrameAt(session, log, aad, plaintext.value, q)
    case Aside(_) => true
  }

  predicate FrameAt(session: Bytes, log: seq<SenderSpec.Frame>, aad: Codec.FrameAad, plaintext: Bytes, q: nat)
  {
    q < |log| && Carried(log[q]) && aad == AadOf(session, q, log[q]) && plaintext == PlaintextOf(log[q])
  }

  /** Nothing on the receiver's side ends the transfer before its time. */
  predicate Benign(a: Arrival, id: int)
  {
    match a
    case Decrypted(_, _, _) => true
    case Aside(e) =>
      match e
      case Cancelled(other) => other != id
      case Swept(expired) => id !in expired
      case TornDown => false
      case _ => true
  }

  /** The log holds one manifest of the transfer, only its own chunks under its id, and no cancel of it. */
  ghost predicate Clean(p: Shipment)
  {
    forall q :: 0 <= q < |p.log| ==> Carried(p.log[q]) && CleanFrame(p, q)
  }

  predicate CleanFrame(p: Shipment, q: nat)
    requires q < |p.log|
  {
    match p.log[q]
    case ManifestFrame(other, _) => other == p.id ==> q == p.first
    case ChunkFrame(other, i, b) => other == p.id ==> i < ChunkCount(|p.data|) && b == Slice(p.data, i)
    case CancelFrame(other) => other != p.id
    case ControlFrame(subtype, payload) => subtype == 6 && |payload| == 4 ==> Uint32At(payload, 0) != p.id
    case TextFrame(_) => true
  }

  /** A chunk of the transfer. */
  predicate ChunkOf(id: int, a: Arrival, i: int)
  {
    a.Decrypted? && a.aad.frameType == Codec.FILE_CHUNK && a.aad.transferId == id && a.aad.chunkId == i
  }

  /** One arrival after the manifest: harmless, and a chunk exactly when it is a released chunk frame. */
  lemma ArrivalAsks(config: Receiver.Config, p: Shipment, st: Station, a: Arrival)
    requires Possible(st, a) && Clean(p) && Genuinely(p.session, p.log, a) && Benign(a, p.id) && p.first in st.accepted
    ensures forall e :: e in Asked(config, st, a) ==> FromSender(e, p.id, p.data)
    ensures forall i :: i in Arrived(Asked(config, st, a), p.id) <==> Released(st, a) && ChunkOf(p.id, a, i)
    ensures p.first in Take(config, st, a).accepted
  {
    TakeAsks(config, st, a);
    var asked := Asked(config, st, a);
    if Released(st, a) {
      var q: nat :| FrameAt(p.session, p.log, a.aad, a.plaintext.value, q);
      FrameAsks(config, p.session, q, p.log[q], a.now);
      assert CleanFrame(p, q);
    }
    if asked != [] {
      assert asked == [asked[0]];
      ArrivedOne(asked[0], p.id);
    }
  }

  ghost predicate ChunkReleased(config: Receiver.Config, id: int, st: Station, arrivals: seq<Arrival>, i: int)
    requires Arrives(config, st, arrivals)
  {
    exists k :: 0 <= k < |arrivals| && ReleasedAt(config, st, arrivals, k) && ChunkOf(id, arrivals[k], i)
  }

  lemma ArrivedConcat(a: seq<Event>, b: seq<Event>, id: int)
    ensures forall i :: i in Arrived(a + b, id) <==> i in Arrived(a, id) || i in Arrived(b, id)
  {
    forall i | i in Arrived(a + b, id) ensures i in Arrived(a, id) || i in Arrived(b, id) {
      var k :| 0 <= k < |a + b| && (a + b)[k].FrameChunk? && (a + b)[k].transferId == id && (a + b)[k].index == i;
      assert k >= |a| ==> b[k - |a|] == (a + b)[k];
    }
    forall i | i in Arrived(a, id) ensures i in Arrived(a + b, id) {
      var k :| 0 <= k < |a| && a[k].FrameChunk? && a[k].transferId == id && a[k].index == i;
      assert (a + b)[k] == a[k];
    }
    forall i | i in Arrived(b, id) ensures i in Arrived(a + b, id) {
      var k :| 0 <= k < |b| && b[k].FrameChunk? && b[k].transferId == id && b[k].index == i;
      assert (a + b)[k + |a|] == b[k];
    }
  }

  /** The first arrival, or one of the others. */
  lemma ChunkSplit(config: Receiver.Config, id: int, st: Station, arrivals: seq<Arrival>, i: int)
    requires arrivals != [] && Arrives(config, st, arrivals)
    ensures ChunkReleased(config, id, st, arrivals, i)
       <==> (Released(st, arrivals[0]) && ChunkOf(id, arrivals[0], i))
            || ChunkReleased(config, id, Take(config, st, arrivals[0]), arrivals[1..], i)
  {
    var rest, n := arrivals[1..], Take(config, st, arrivals[0]);
    if Released(st, arrivals[0]) && ChunkOf(id, arrivals[0], i) {
      assert ReleasedAt(config, st, arrivals, 0);
    }
    if k :| 0 <= k < |rest| && ReleasedAt(config, n, rest, k) && ChunkOf(id, rest[k], i) {
      assert ReleasedAt(config, st, arrivals, k + 1) && arrivals[k + 1] == rest[k];
    }
    if k :| 0 <= k < |arrivals| && ReleasedAt(config, st, arrivals, k) && ChunkOf(id, arrivals[k], i) {
      assert k > 0 ==> ReleasedAt(config, n, rest, k - 1) && rest[k - 1] == arrivals[k];
    }
  }

  lemma {:induction false} ArrivalsAsk(config: Receiver.Config, p: Shipment, st: Station, arrivals: seq<Arrival>)
    requires Arrives(config, st, arrivals) && Clean(p) && p.first in st.accepted
    requires forall k :: 0 <= k < |arrivals| ==> Genuinely(p.session, p.log, arrivals[k]) && Benign(arrivals[k], p.id)
    ensures forall e :: e in AllAsked(config, st, arrivals) ==> FromSender(e, p.id, p.data)
    ensures forall i :: i in Arrived(AllAsked(config, st, arrivals), p.id) <==> ChunkReleased(config, p.id, st, arrivals, i)
    decreases |arrivals|
  {
    if arrivals != [] {
      var a, rest := arrivals[0], arrivals[1..];
      var n := Take(config, st, a);
      ArrivalAsks(config, p, st, a);
      assert forall k :: 0 <= k < |rest| ==> rest[k] == arrivals[k + 1];
      ArrivalsAsk(config, p, n, rest);
      ArrivedConcat(Asked(config, st, a), AllAsked(config, n, rest), p.id);
      forall i ensures i in Arrived(AllAsked(config, st, arrivals), p.id) <==> ChunkReleased(config, p.id, st, arrivals, i) {
        ChunkSplit(config, p.id, st, arrivals, i);
      }
    }
  }

  // ----- The sender's log -----

  lemma {:induction false} InFrames(log: seq<SenderSpec.Frame>, id: int, f: SenderSpec.Frame)
    requires f in log && SenderRuns.Of(f, id)
    ensures f in SenderRuns.FramesOf(log, id)
  {
    var last := |log| - 1;
    if f != log[last] {
      assert log == log[..last] + [log[last]];
      InFrames(log[..last], id, f);
    }
  }

  /** Two frames of a transfer are two of its frames. */
  lemma {:induction false} BothInFrames(log: seq<SenderSpec.Frame>, id: int, i: nat, j: nat) returns (a: nat, b: nat)
    requires i < j < |log| && SenderRuns.Of(log[i], id) && SenderRuns.Of(log[j], id)
    ensures a < b < |SenderRuns.FramesOf(log, id)|
    ensures SenderRuns.FramesOf(log, id)[a] == log[i] && SenderRuns.FramesOf(log, id)[b] == log[j]
  {
    var last := |log| - 1;
    var before := SenderRuns.FramesOf(log[..last], id);
    if j < last {
      a, b := BothInFrames(log[..last], id, i, j);
    } else {
      assert log[i] in log[..last];
      InFrames(log[..last], id, log[i]);
      a :| a < |before| && before[a] == log[i];
      b := |before|;
    }
  }

  /** A transfer sent once has one manifest in the log. */
  lemma OneManifest(sha: SenderSpec.Hash, log: seq<SenderSpec.Frame>, id: int, file: SenderSpec.File, i: nat, j: nat)
    requires SenderRuns.FramesOf(log, id) == SenderRuns.Script(sha, id, file, ChunkCount(|file.data|))
    requires i < |log| && j < |log| && SenderRuns.Of(log[i], id) && SenderRuns.Of(log[j], id)
    requires log[i].ManifestFrame? && log[j].ManifestFrame?
    ensures i == j
  {
    if i != j {
      var a, b := BothInFrames(log, id, if i < j then i else j, if i < j then j else i);
    }
  }

  lemma {:induction false} FromLog(log: seq<SenderSpec.Frame>, id: int, f: SenderSpec.Frame)
    requires f in SenderRuns.FramesOf(log, id)
    ensures f in log
  {
    var last := |log| - 1;
    if log != [] && f in SenderRuns.FramesOf(log[..last], id) {
      FromLog(log[..last], id, f);
    }
  }

  /** One `sendFile` call drove the transfer and it was reported sent; nobody cancelled it, not even with a
      control frame made by hand, and control frames have the subtypes the session lets through. */
  ghost predicate SentAlone(s: SenderSpec.Sender, id: int)
  {
    id in s.finished && id !in s.twice && id !in s.cut
    && forall f :: f in s.log && f.ControlFrame? ==>
         1 <= f.subtype <= 8 && !(f.subtype == 6 && |f.payload| == 4 && Uint32At(f.payload, 0) == id)
  }

  lemma LogClean(sha: SenderSpec.Hash, es: seq<SenderSpec.Event>, s: SenderSpec.Sender, id: int, session: Bytes) returns (first: nat)
    requires SenderRuns.Reached(sha, es, s) && SentAlone(s, id)
    ensures first < |s.log| && s.log[first] == SenderSpec.ManifestFrame(id, SenderSpec.ManifestOf(sha, id, s.finished[id]))
    ensures Clean(Shipment(session, s.log, id, s.finished[id].data, first))
  {
    var file := s.finished[id];
    var script := SenderRuns.Script(sha, id, file, ChunkCount(|file.data|));
    SenderRuns.SentCompletely(sha, es, s, id);
    SenderRuns.ReachedInv(sha, es, s);
    LogCarried(sha, es, s);
    assert script[0] in SenderRuns.FramesOf(s.log, id);
    FromLog(s.log, id, script[0]);
    first :| first < |s.log| && s.log[first] == script[0];
    var p := Shipment(session, s.log, id, file.data, first);
    forall q | 0 <= q < |s.log| ensures Carried(s.log[q]) && CleanFrame(p, q) {
      FrameClean(sha, s, p, q);
    }
  }

  lemma FrameClean(sha: SenderSpec.Hash, s: SenderSpec.Sender, p: Shipment, q: nat)
    requires SenderRuns.Cancelling(s) && SentAlone(s, p.id) && q < |s.log| && p.log == s.log && p.data == s.finished[p.id].data
    requires p.first < |s.log| && SenderRuns.Of(s.log[p.first], p.id) && s.log[p.first].ManifestFrame?
    requires SenderRuns.FramesOf(s.log, p.id) == SenderRuns.Script(sha, p.id, s.finished[p.id], ChunkCount(|p.data|))
    requires s.log[q].ControlFrame? || Carried(s.log[q])
    ensures Carried(s.log[q]) && CleanFrame(p, q)
  {
    var f := s.log[q];
    if f.ManifestFrame? && f.transferId == p.id {
      OneManifest(sha, s.log, p.id, s.finished[p.id], p.first, q);
    } else if f.ChunkFrame? && f.transferId == p.id {
      InFrames(s.log, p.id, f);
    }
  }

  // ----- A text, a control message, a cancel -----

  /** A released frame of the sender has at the receiver the effect it was sent for: a text or a control
      message is handed to the host as it was sent, and a cancel drops the transfer it names. */
  lemma MessageArrives(config: Receiver.Config, st: Station, a: Arrival, session: Bytes, log: seq<SenderSpec.Frame>, q: nat)
    requires Possible(st, a) && Released(st, a) && FrameAt(session, log, a.aad, a.plaintext.value, q)
    ensures var v, w := st.view, Take(config, st, a).view;
            match log[q]
            case TextFrame(b) => w == v.(log := v.log + [TextReceived(b)])
            case ControlFrame(subtype, payload) =>
              if 1 <= subtype <= 5 || (config.allowGroup && 7 <= subtype <= 8)
              then w == v.(log := v.log + [ControlReceived(subtype, payload)])
              else if subtype == 6 && |payload| == 4 then w == v.(live := v.live - {Uint32At(payload, 0)})
              else w == v
            case CancelFrame(id) => w == v.(live := v.live - {id})
            case ManifestFrame(id, m) => w == AfterManifest(v, id, Shown(config.utf8, m), a.now)
            case ChunkFrame(id, i, b) => w == AfterChunk(v, id, i, b, a.now)
  {
    FrameAsks(config, session, q, log[q], a.now);
    TakeAsks(config, st, a);
    var asked := Asked(config, st, a);
    if asked != [] {
      assert asked[0] in asked;
    }
  }

  /** A text is delivered: sent in any reached state of a sender that stands and has numbers left, and short
      enough for its frame, it is encoded, the peer hands its decryption the AAD it was sealed under, and once
      released it is shown to the peer's host as it was sent. */
  lemma TextDelivered(sha: SenderSpec.Hash, es: seq<SenderSpec.Event>, s: SenderSpec.Sender, b: Bytes, session: Bytes,
                      ciphertext: Bytes, config: Receiver.Config, st: Station, now: int)
    requires SenderRuns.Reached(sha, es, s) && !s.tearingDown && s.sequence <= 0xffff_ffff
    requires |session| == Codec.SESSION_ID_BYTES && config.peerSessionId == session && |ciphertext| == |b| + Codec.GCM_TAG_BYTES
    requires |ciphertext| <= Codec.MAX_TEXT_FRAME_BYTES
    requires var a := Decrypted(AadOf(session, |s.log|, SenderSpec.TextFrame(b)), Some(b), now); Possible(st, a) && Released(st, a)
    ensures var n, k := SenderSpec.Next(sha, s, SenderSpec.SendsText(b)), |s.log|;
            n.log == s.log + [SenderSpec.TextFrame(b)] && k <= UINT32_MAX
            && var w := WireOf(session, k, n.log[k], ciphertext);
               Codec.WireFault(w).None? && Receiver.ToDecrypt(config, Codec.WireBytes(w)) == Ok(AadOf(session, k, n.log[k]))
               && Take(config, st, Decrypted(AadOf(session, k, n.log[k]), Some(b), now)).view.log == st.view.log + [TextReceived(b)]
  {
    var n, k := SenderSpec.Next(sha, s, SenderSpec.SendsText(b)), |s.log|;
    SenderProgress.CallSends(sha, s, b, 1);
    SenderRuns.ReachedNext(sha, es, s, SenderSpec.SendsText(b));
    FrameTravels(sha, es + [SenderSpec.SendsText(b)], n, k, session, ciphertext, config);
    MessageArrives(config, st, Decrypted(AadOf(session, k, n.log[k]), Some(b), now), session, n.log, k);
  }

  // ----- A file -----

  /** The frame that announces the transfer. */
  predicate ManifestFrameOf(id: int, a: Arrival)
  {
    a.Decrypted? && a.aad.frameType == Codec.FILE_MANIFEST && a.aad.transferId == id
  }

  /** A file on its way: one call drove it and it was reported sent and never cancelled; the receiver has
      room for it when its manifest is released; and from then on only authentic frames of this sender
      arrive, in any order and however often, mixed with steps that do not end the transfer. */
  ghost predicate OnItsWay(sha: SenderSpec.Hash, es: seq<SenderSpec.Event>, s: SenderSpec.Sender, id: int, session: Bytes,
                           config: Receiver.Config, st: Station, arrivals: seq<Arrival>)
  {
    SenderRuns.Reached(sha, es, s) && SentAlone(s, id) && config.sha == sha
    && Inv(st.view) && st.view.hashing.None? && !st.view.tornDown
    && id !in st.view.live && |st.view.live| < 4
    && Total(st.view.live, Declared) + |s.finished[id].data| <= MAX_INCOMPLETE_TRANSFER_BYTES
    && arrivals != [] && Arrives(config, st, arrivals) && Released(st, arrivals[0]) && ManifestFrameOf(id, arrivals[0])
    && forall k :: 0 <= k < |arrivals| ==> Genuinely(session, s.log, arrivals[k]) && Benign(arrivals[k], id)
  }

  /** What the receiver decodes the manifest of a sent file to. */
  function Announced(sha: SenderSpec.Hash, config: Receiver.Config, id: int, file: SenderSpec.File): FileManifest
  {
    Shown(config.utf8, SenderSpec.ManifestOf(sha, id, file))
  }

  /** The manifest is released: the transfer is admitted with what the sender announced. */
  lemma ManifestArrives(sha: SenderSpec.Hash, es: seq<SenderSpec.Event>, s: SenderSpec.Sender, id: int, session: Bytes,
                        config: Receiver.Config, st: Station, arrivals: seq<Arrival>) returns (p: Shipment)
    requires OnItsWay(sha, es, s, id, session, config, st, arrivals)
    ensures var m := Announced(sha, config, id, s.finished[id]);
            Canonical(m) && m.transferId == id && m.size == |p.data| && m.contentHash == sha(p.data) && Room(st.view, m)
            && Take(config, st, arrivals[0]).view == AfterManifest(st.view, id, m, arrivals[0].now)
    ensures Clean(p) && p.session == session && p.log == s.log && p.id == id && p.data == s.finished[id].data
    ensures p.first in Take(config, st, arrivals[0]).accepted && !Released(Take(config, st, arrivals[0]), arrivals[0])
  {
    var first := LogClean(sha, es, s, id, session);
    p := Shipment(session, s.log, id, s.finished[id].data, first);
    assert Genuinely(session, s.log, arrivals[0]);
    FirstIsManifest(config, p, st, arrivals[0]);
    TakeAsks(config, st, arrivals[0]);
  }

  lemma FirstIsManifest(config: Receiver.Config, p: Shipment, st: Station, a: Arrival)
    requires Possible(st, a) && Released(st, a) && ManifestFrameOf(p.id, a) && Genuinely(p.session, p.log, a)
    requires Clean(p) && p.first < |p.log| && p.log[p.first].ManifestFrame? && p.log[p.first].transferId == p.id
    ensures var m := p.log[p.first].manifest;
            a.aad.senderSequence == p.first && ManifestFault(m).None? && m.transferId == p.id
            && Take(config, st, a).view == AfterManifest(st.view, p.id, Shown(config.utf8, m), a.now)
  {
    var q: nat :| FrameAt(p.session, p.log, a.aad, a.plaintext.value, q);
    assert CleanFrame(p, q) && Carried(p.log[p.first]);
    MessageArrives(config, st, a, p.session, p.log, q);
  }

  /** A file that one `sendFile` call reported sent arrives: whatever is handed to the receiver after its
      manifest, in any order, it reports the file at most once, and only once every chunk was released, with
      exactly the sender's bytes under the sender's manifest as decoded; and once every chunk was released
      and no completion waits for its hash, it has reported it. */
  lemma FileArrives(sha: SenderSpec.Hash, es: seq<SenderSpec.Event>, s: SenderSpec.Sender, id: int, session: Bytes,
                    config: Receiver.Config, st: Station, arrivals: seq<Arrival>)
    requires OnItsWay(sha, es, s, id, session, config, st, arrivals)
    ensures var v, w, data := st.view, End(config, st, arrivals).view, s.finished[id].data;
            var all := forall i :: 0 <= i < ChunkCount(|data|) ==> ChunkReleased(config, id, st, arrivals, i);
            && Completions(w.log, id) <= Completions(v.log, id) + 1
            && (Completions(w.log, id) > Completions(v.log, id) ==>
                  all && FileCompleted(Announced(sha, config, id, s.finished[id]), data) in w.log)
            && (all && w.hashing.None? ==> Completions(w.log, id) == Completions(v.log, id) + 1)
  {
    var p := ManifestArrives(sha, es, s, id, session, config, st, arrivals);
    var n, rest := Take(config, st, arrivals[0]), arrivals[1..];
    forall k | 0 <= k < |rest| ensures Genuinely(session, s.log, rest[k]) && Benign(rest[k], id) {
      assert rest[k] == arrivals[k + 1];
    }
    ArrivalsAsk(config, p, n, rest);
    forall i: int ensures ChunkReleased(config, id, n, rest, i) <==> ChunkReleased(config, id, st, arrivals, i) {
      ChunkSplit(config, id, st, arrivals, i);
    }
    RestArrives(config, p, st, n, arrivals[0].now, rest, Announced(sha, config, id, s.finished[id]));
  }

  lemma RestArrives(config: Receiver.Config, p: Shipment, st: Station, n: Station, now: int, rest: seq<Arrival>, m: FileManifest)
    requires Inv(st.view) && st.view.hashing.None? && !st.view.tornDown && Arrives(config, n, rest)
    requires Canonical(m) && m.transferId == p.id && m.size == |p.data| && m.contentHash == config.sha(p.data) && Room(st.view, m)
    requires n.view == AfterManifest(st.view, p.id, m, now)
    requires forall e :: e in AllAsked(config, n, rest) ==> FromSender(e, p.id, p.data)
    requires forall i :: i in Arrived(AllAsked(config, n, rest), p.id) <==> ChunkReleased(config, p.id, n, rest, i)
    ensures var v, w := st.view, End(config, n, rest).view;
            var all := forall i :: 0 <= i < ChunkCount(|p.data|) ==> ChunkReleased(config, p.id, n, rest, i);
            && Completions(w.log, p.id) <= Completions(v.log, p.id) + 1
            && (Completions(w.log, p.id) > Completions(v.log, p.id) ==> all && FileCompleted(m, p.data) in w.log)
            && (all && w.hashing.None? ==> Completions(w.log, p.id) == Completions(v.log, p.id) + 1)
  {
    var asked := AllAsked(config, n, rest);
    ArrivalsRun(config, n, rest);
    assert forall k :: 0 <= k < |asked| ==> asked[k] in asked;
    EndToEnd(config.sha, st.view, asked, m, p.data, now);
  }

  // ----- Frames that are not too late -----

  predicate Sealed(a: Arrival)
  {
    a.Decrypted? && a.plaintext.Some? && 0 <= a.aad.senderSequence <= UINT32_MAX
  }

  /** No authentic frame is handed over a whole window behind one that was handed over before it. */
  ghost predicate InTime(st: Station, arrivals: seq<Arrival>)
  {
    (forall k :: 0 <= k < |arrivals| && Sealed(arrivals[k]) ==>
       Replay.Highest(st.accepted) < arrivals[k].aad.senderSequence + Receiver.REPLAY_WINDOW)
    && (forall j, k :: 0 <= j < k < |arrivals| && Sealed(arrivals[j]) && Sealed(arrivals[k]) ==>
          arrivals[j].aad.senderSequence < arrivals[k].aad.senderSequence + Receiver.REPLAY_WINDOW)
  }

  lemma Stands(config: Receiver.Config, st: Station, a: Arrival, id: int)
    requires Possible(st, a) && Benign(a, id) && Inv(st.view) && !st.view.tornDown
    ensures Inv(Take(config, st, a).view) && !Take(config, st, a).view.tornDown
  {
    TakeAsks(config, st, a);
    var asked := Asked(config, st, a);
    if asked != [] {
      assert asked[0] in asked;
      NextKeeps(config.sha, st.view, asked[0]);
      if asked[0].Swept? {
        SweepKeeps(st.view, asked[0].expired);
      }
    }
  }

  lemma StillInTime(config: Receiver.Config, st: Station, arrivals: seq<Arrival>)
    requires arrivals != [] && Possible(st, arrivals[0]) && InTime(st, arrivals)
    ensures InTime(Take(config, st, arrivals[0]), arrivals[1..])
    ensures Take(config, st, arrivals[0]).accepted <= st.accepted + if Sealed(arrivals[0]) then {arrivals[0].aad.senderSequence} else {}
  {
    var n, rest := Take(config, st, arrivals[0]), arrivals[1..];
    assert forall k :: 0 <= k < |rest| ==> rest[k] == arrivals[k + 1];
    assert n.accepted != {} ==> Replay.Highest(n.accepted) in n.accepted;
  }

  /** At every turn an authentic frame with a number not yet accepted is released. */
  ghost predicate Timely(config: Receiver.Config, st: Station, arrivals: seq<Arrival>)
    requires Arrives(config, st, arrivals)
    decreases |arrivals|
  {
    arrivals == []
    || ((Sealed(arrivals[0]) && arrivals[0].aad.senderSequence !in st.accepted ==> Released(st, arrivals[0]))
        && Timely(config, Take(config, st, arrivals[0]), arrivals[1..]))
  }

  lemma {:induction false} TimelyRun(config: Receiver.Config, st: Station, arrivals: seq<Arrival>, id: int)
    requires Arrives(config, st, arrivals) && InTime(st, arrivals) && Inv(st.view) && !st.view.tornDown
    requires forall i :: 0 <= i < |arrivals| ==> Benign(arrivals[i], id)
    ensures Timely(config, st, arrivals)
    decreases |arrivals|
  {
    if arrivals != [] {
      var n, rest := Take(config, st, arrivals[0]), arrivals[1..];
      Stands(config, st, arrivals[0], id);
      StillInTime(config, st, arrivals);
      assert forall i :: 0 <= i < |rest| ==> rest[i] == arrivals[i + 1];
      TimelyRun(config, n, rest, id);
    }
  }

  /** A number that was not accepted before is released the first time its frame is handed over. */
  lemma {:induction false} FirstReleased(config: Receiver.Config, st: Station, arrivals: seq<Arrival>, k: nat) returns (j: nat)
    requires Arrives(config, st, arrivals) && Timely(config, st, arrivals)
    requires k < |arrivals| && Sealed(arrivals[k]) && arrivals[k].aad.senderSequence !in st.accepted
    ensures j <= k && ReleasedAt(config, st, arrivals, j) && Sealed(arrivals[j])
    ensures arrivals[j].aad.senderSequence == arrivals[k].aad.senderSequence
    decreases |arrivals|
  {
    if Sealed(arrivals[0]) && arrivals[0].aad.senderSequence == arrivals[k].aad.senderSequence {
      j := 0;
    } else {
      var n, rest := Take(config, st, arrivals[0]), arrivals[1..];
      TakeAccepts(config, st, arrivals[0]);
      var i := FirstReleased(config, n, rest, k - 1);
      j := i + 1;
    }
  }

  lemma TakeAccepts(config: Receiver.Config, st: Station, a: Arrival)
    requires Possible(st, a)
    ensures Take(config, st, a).accepted <= st.accepted + if Sealed(a) then {a.aad.senderSequence} else {}
  {
  }

  /** A chunk is handed over, under a number that was not used up before the manifest came. */
  ghost predicate ChunkHanded(id: int, st: Station, arrivals: seq<Arrival>, i: int)
  {
    exists k :: 0 <= k < |arrivals| && Sealed(arrivals[k]) && ChunkOf(id, arrivals[k], i) && arrivals[k].aad.senderSequence !in st.accepted
  }

  lemma HandedReleased(config: Receiver.Config, id: int, st: Station, arrivals: seq<Arrival>, session: Bytes,
                       log: seq<SenderSpec.Frame>, i: int)
    requires Arrives(config, st, arrivals) && InTime(st, arrivals) && Inv(st.view) && !st.view.tornDown
    requires forall k :: 0 <= k < |arrivals| ==> Genuinely(session, log, arrivals[k]) && Benign(arrivals[k], id)
    requires ChunkHanded(id, st, arrivals, i)
    ensures ChunkReleased(config, id, st, arrivals, i)
  {
    var k :| 0 <= k < |arrivals| && Sealed(arrivals[k]) && ChunkOf(id, arrivals[k], i) && arrivals[k].aad.senderSequence !in st.accepted;
    TimelyRun(config, st, arrivals, id);
    var j := FirstReleased(config, st, arrivals, k);
    assert Genuinely(session, log, arrivals[j]) && Genuinely(session, log, arrivals[k]);
    assert arrivals[j].aad == arrivals[k].aad;
    assert ReleasedAt(config, st, arrivals, j) && ChunkOf(id, arrivals[j], i);
  }

  /** Delivery: when every chunk frame is handed over after the manifest, at least once, and none a whole
      replay window behind another, the file is reported, exactly once and with exactly the sender's bytes,
      as soon as no completion waits for its hash. */
  lemma FileDelivered(sha: SenderSpec.Hash, es: seq<SenderSpec.Event>, s: SenderSpec.Sender, id: int, session: Bytes,
                      config: Receiver.Config, st: Station, arrivals: seq<Arrival>)
    requires OnItsWay(sha, es, s, id, session, config, st, arrivals) && InTime(st, arrivals)
    requires forall i :: 0 <= i < ChunkCount(|s.finished[id].data|) ==> ChunkHanded(id, st, arrivals, i)
    requires End(config, st, arrivals).view.hashing.None?
    ensures Completions(End(config, st, arrivals).view.log, id) == Completions(st.view.log, id) + 1
    ensures FileCompleted(Announced(sha, config, id, s.finished[id]), s.finished[id].data) in End(config, st, arrivals).view.log
  {
    forall i | 0 <= i < ChunkCount(|s.finished[id].data|) ensures ChunkReleased(config, id, st, arrivals, i) {
      HandedReleased(config, id, st, arrivals, session, s.log, i);
    }
    FileArrives(sha, es, s, id, session, config, st, arrivals);
  }
}
