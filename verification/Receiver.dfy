/** The framing receiver (`framing/receiver.ts`): one object updated step by step, where every
    `await` ends a method. Its counters, chunk arrays and latches refine `TransferSpec`. */
module Receiver {
  import opened Bytes
  import opened Manifest
  import opened TransferSpec
  import opened TransferRuns
  import Codec
  import Replay
  import Text

  const TRANSFER_CANCEL: int := 6

  /** The control subtypes every link accepts, and the two that only group links accept. */
  predicate KnownSubtype(allowGroup: bool, subtype: int)
  {
    1 <= subtype <= 6 || (allowGroup && 7 <= subtype <= 8)
  }

  datatype IngestError =
    | MalformedFrame | WrongSession | UnknownControlSubtype | UnsupportedFrameType
    | BadManifest(cause: FramingError) | BadCancel(reason: Codec.ProtocolError) | Refused(fault: Fault)

  datatype Config = Config(
    peerSessionId: Bytes,
    allowGroup: bool,
    inactivityTimeoutMs: int,
    utf8: Text.Utf8,
    sha: Bytes -> Bytes)

  /** What an authenticated, in-window frame asks of the receiver. */
  function Request(config: Config, aad: Codec.FrameAad, plaintext: Bytes, now: int): Result<Event, IngestError>
  {
    if aad.frameType == Codec.TEXT then Ok(FrameText(plaintext))
    else if aad.frameType == Codec.CONTROL then
      if plaintext == [] then Err(MalformedFrame)
      else if !KnownSubtype(config.allowGroup, plaintext[0]) then Err(UnknownControlSubtype)
      else if plaintext[0] == TRANSFER_CANCEL then
        match Codec.DecodeTransferCancel(plaintext[1..])
        case Err(e) => Err(BadCancel(e))
        case Ok(id) => Ok(Cancelled(id))
      else Ok(FrameControl(plaintext[0], plaintext[1..]))
    else if aad.frameType == Codec.FILE_MANIFEST then
      match DecodeManifest(config.utf8, plaintext, aad.transferId)
      case Err(e) => Err(BadManifest(e))
      case Ok(m) => Ok(FrameManifest(aad.transferId, m, now))
    else if aad.frameType == Codec.FILE_CHUNK then Ok(FrameChunk(aad.transferId, aad.chunkId, plaintext, now))
    else Err(UnsupportedFrameType)
  }

  const REPLAY_WINDOW: nat := 1024

  /** Where the transfers stand once the decryption of a frame resolved: forgeries, frames the replay window
      has seen or finds too old, and frames after a teardown change nothing. */
  ghost function Handed(config: Config, accepted: set<nat>, v: View, aad: Codec.FrameAad, plaintext: Option<Bytes>, now: int): View
    requires v.hashing.None?
  {
    if plaintext.None? || v.tornDown || Replay.Judge(REPLAY_WINDOW, accepted, aad.senderSequence) != Replay.Accepted then v
    else
      match Request(config, aad, plaintext.value, now)
      case Err(_) => v
      case Ok(event) => Next(config.sha, v, event)
  }

  class ActiveTransfer {
    const manifest: FileManifest
    var chunks: seq<Option<Bytes>>
    var receivedCount: int
    var receivedBytes: int
    var lastActivity: int
    var dropped: bool

    constructor (manifest: FileManifest, now: int)
      requires manifest.chunkCount >= 0
      ensures this.manifest == manifest && chunks == Opened(manifest, now).chunks
      ensures receivedCount == receivedBytes == 0 && lastActivity == now && !dropped
    {
      this.manifest := manifest;
      chunks := seq(manifest.chunkCount, _ => None);
      receivedCount, receivedBytes, lastActivity, dropped := 0, 0, now, false;
    }

    ghost function Value(): Transfer
      reads this
    {
      Transfer(manifest, chunks, lastActivity)
    }

    /** A live record of `t`: the slots are those of `t` and the two counters agree with them. */
    ghost predicate Records(t: Transfer)
      reads this
    {
      && manifest == t.manifest && chunks == t.chunks && lastActivity == t.lastActivity && !dropped
      && receivedCount == Filled(t.chunks) && receivedBytes == Received(t.chunks)
    }

    method Take(chunkId: nat, plaintext: Bytes, now: int, ghost before: Transfer, ghost after: Transfer)
      requires Records(before) && chunkId < |before.chunks|
      requires after == before.(chunks := before.chunks[chunkId := Some(plaintext)], lastActivity := now)
      requires Received(after.chunks) == Received(before.chunks) + |plaintext| && Filled(after.chunks) == Filled(before.chunks) + 1
      modifies this
      ensures Records(after)
    {
      chunks := chunks[chunkId := Some(plaintext)];
      receivedCount := receivedCount + 1;
      receivedBytes := receivedBytes + |plaintext|;
      lastActivity := now;
    }
  }

  /** The checks an inbound frame passes before its decryption starts. */
  function ToDecrypt(config: Config, bytes: Bytes): Result<Codec.FrameAad, IngestError>
  {
    match Codec.DecodeWireFrame(bytes)
    case Err(_) => Err(MalformedFrame)
    case Ok(w) =>
      var aad := w.header.aad;
      if aad.senderSessionId != config.peerSessionId then Err(WrongSession)
      else if |aad.senderSessionId| != Codec.SESSION_ID_BYTES || !Codec.IsUint32(aad.senderSequence) then Err(MalformedFrame)
      else if w.nonce != Codec.Nonce(aad.senderSessionId, aad.senderSequence) then Err(MalformedFrame)
      else Ok(aad)
  }

  datatype Phase =
    | Idle
    | Decrypting(aad: Codec.FrameAad)
    | Hashing(transferId: int, transfer: ActiveTransfer, reassembled: Bytes)

  class FrameReceiver {
    const config: Config
    const replayWindow: Replay.Window
    var transfers: map<int, ActiveTransfer>
    var totalBufferedBytes: int
    var outstandingDeclaredBytes: int
    var tornDown: bool
    var ingestChain: seq<Bytes>
    var phase: Phase
    var log: seq<HostEvent>
    ghost var view: View
    ghost var events: seq<Event>

    ghost function Objects(): set<object>
      reads this`transfers, this`phase
    {
      transfers.Values + (if phase.Hashing? then {phase.transfer} else {})
    }

    /** The object invariant: the real fields show the specification state `view`, which is where
        the run `events` of the specification ends, and the two byte counters are the sums they
        stand for. */
    ghost predicate Valid()
      reads this, Objects()
    {
      Mirrors() && Reaches(config.sha, events, view)
    }

    ghost predicate Mirrors()
      reads this`transfers, this`totalBufferedBytes, this`outstandingDeclaredBytes, this`phase, this`view, this`tornDown, this`log, Objects()
    {
      Shows() && view.hashing == Parking() && view.tornDown == tornDown && view.log == log
    }

    ghost function Parking(): Option<Job>
      reads this`phase
    {
      if phase.Hashing? then Some(Job(phase.transferId, phase.transfer.manifest, phase.reassembled)) else None
    }

    /** The transfer table and the counters agree with the specification's live transfers, and a
        parked transfer that left the table is marked dropped. */
    ghost predicate Shows()
      reads this`transfers, this`totalBufferedBytes, this`outstandingDeclaredBytes, this`phase, this`view, Objects()
    {
      && Records(view.live)
      && totalBufferedBytes == Total(view.live, ReceivedBy)
      && outstandingDeclaredBytes == Total(view.live, MissingFrom)
      && (phase.Hashing? ==> Latched(phase.transferId, phase.transfer))
    }

    ghost predicate Latched(id: int, t: ActiveTransfer)
      reads this`transfers, t
    {
      t.manifest.transferId == id && if id in transfers then transfers[id] == t else t.dropped
    }

    constructor (config: Config)
      ensures Valid() && replayWindow.Valid() && this.config == config && fresh(replayWindow) && fresh(replayWindow.slots)
      ensures view == START && events == [] && ingestChain == [] && phase == Idle
      ensures replayWindow.size == REPLAY_WINDOW && replayWindow.accepted == {}
    {
      this.config := config;
      replayWindow := new Replay.Window(REPLAY_WINDOW);
      transfers := map[];
      totalBufferedBytes, outstandingDeclaredBytes, tornDown := 0, 0, false;
      ingestChain, phase, log := [], Idle, [];
      view, events := START, [];
    }

    /** At most four transfers, and buffered plus outstanding bytes never over the budget. */
    lemma Bounds()
      requires Valid()
      ensures |transfers| <= MAX_CONCURRENT_TRANSFERS
      ensures 0 <= totalBufferedBytes && 0 <= outstandingDeclaredBytes
      ensures totalBufferedBytes + outstandingDeclaredBytes <= MAX_INCOMPLETE_TRANSFER_BYTES
      ensures transfers == map[] ==> totalBufferedBytes == outstandingDeclaredBytes == 0
    {
      ReachedIsSound(config.sha, events, view);
      var live := view.live;
      assert live.Keys == transfers.Keys;
      CommittedIsDeclared(live);
      forall id | id in live
        ensures MissingFrom(live[id]) >= 0
      {
        WellFormedBound(id, live[id]);
      }
      TotalBound(live, ReceivedBy);
      TotalBound(live, MissingFrom);
    }

    // ----- Entry points -----

    /** `ingest`: append to the serializing chain, unless torn down. */
    method Ingest(bytes: Bytes)
      requires Valid()
      modifies this`ingestChain
      ensures Valid() && view == old(view)
      ensures ingestChain == if tornDown then old(ingestChain) else old(ingestChain) + [bytes]
    {
      if tornDown {
        return;
      }
      ingestChain := ingestChain + [bytes];
    }

    method CancelTransfer(transferId: int) returns (cancelled: bool)
      requires Valid()
      modifies this`transfers, this`totalBufferedBytes, this`outstandingDeclaredBytes, this`view, this`events, transfers.Values
      ensures Valid() && transfers.Values <= old(transfers.Values)
      ensures cancelled <==> !tornDown && transferId in old(transfers)
      ensures !cancelled ==> view == old(view)
      ensures cancelled ==> Enabled(old(view), Cancelled(transferId))
      ensures cancelled ==> view == Next(config.sha, old(view), Cancelled(transferId))
    {
      if tornDown {
        return false;
      }
      if transferId !in transfers {
        return false;
      }
      DropTransfer(transferId, transfers[transferId]);
      Record(old(view), Cancelled(transferId));
      return true;
    }

    /** `teardown`: every transfer is dropped, whatever is parked. */
    method Teardown()
      requires Valid()
      modifies this`tornDown, this`transfers, this`totalBufferedBytes, this`outstandingDeclaredBytes, this`view, this`events, transfers.Values
      ensures Valid() && transfers == map[]
      ensures view == Next(config.sha, old(view), TornDown)
      ensures totalBufferedBytes == outstandingDeclaredBytes == 0
    {
      DropAll();
      tornDown := true;
      view := view.(tornDown := true);
      Record(old(view), TornDown);
    }

    method DropAll()
      requires Shows()
      modifies this`transfers, this`totalBufferedBytes, this`outstandingDeclaredBytes, this`view, transfers.Values
      ensures Shows() && transfers == map[] && totalBufferedBytes == outstandingDeclaredBytes == 0
      ensures view == old(view).(live := map[])
    {
      while transfers != map[]
        invariant Shows() && transfers.Values <= old(transfers.Values)
        invariant view == old(view).(live := view.live)
        decreases |transfers|
      {
        var transferId :| transferId in transfers;
        DropTransfer(transferId, transfers[transferId]);
        assert transferId !in transfers;
      }
      assert view.live == map[];
    }

    /** One inactivity tick: exactly the transfers idle for longer than the timeout are dropped and
        reported, each once, in some order. */
    method SweepInactiveTransfers(now: int) returns (expired: seq<int>)
      requires Valid()
      modifies this`transfers, this`totalBufferedBytes, this`outstandingDeclaredBytes, this`log, this`view, this`events, transfers.Values
      ensures Valid() && transfers.Values <= old(transfers.Values)
      ensures tornDown ==> expired == [] && view == old(view)
      ensures !tornDown ==> forall id :: id in expired <==>
                id in old(view).live && now - old(view).live[id].lastActivity > config.inactivityTimeoutMs
      ensures !tornDown ==> view == Next(config.sha, old(view), Event.Swept(expired))
      ensures forall i, j :: 0 <= i < j < |expired| ==> expired[i] != expired[j]
    {
      if tornDown {
        return [];
      }
      expired := SweepLive(now);
    }

    method SweepLive(now: int) returns (expired: seq<int>)
      requires Valid() && !tornDown
      modifies this`transfers, this`totalBufferedBytes, this`outstandingDeclaredBytes, this`log, this`view, this`events, transfers.Values
      ensures Valid() && transfers.Values <= old(transfers.Values)
      ensures LookedAt(old(view), expired, {}, now) && view == Next(config.sha, old(view), Event.Swept(expired))
    {
      expired := ExpireStale(now);
      SweepShape(old(view), expired);
      Record(old(view), Event.Swept(expired));
    }

    method ExpireStale(now: int) returns (expired: seq<int>)
      requires Shows() && log == view.log
      modifies this`transfers, this`totalBufferedBytes, this`outstandingDeclaredBytes, this`log, this`view, transfers.Values
      ensures Shows() && log == view.log && transfers.Values <= old(transfers.Values)
      ensures view == AfterSweep(old(view), expired) && LookedAt(old(view), expired, {}, now)
    {
      expired := [];
      ghost var v := view;
      var rest := transfers.Keys;
      while rest != {}
        invariant Shows() && log == view.log && transfers.Values <= old(transfers.Values)
        invariant view == AfterSweep(v, expired) && rest <= v.live.Keys && LookedAt(v, expired, rest, now)
        decreases |rest|
      {
        var transferId, others := Pick(rest);
        expired := ExpireNext(v, expired, others, transferId, now);
        rest := others;
      }
    }

    static method Pick(rest: set<int>) returns (transferId: int, others: set<int>)
      requires rest != {}
      ensures transferId !in others && others + {transferId} == rest && |others| < |rest|
    {
      SomeInt(rest);
      transferId :| transferId in rest;
      others := rest - {transferId};
    }

    /** One turn of that loop; the sweep began in `v`. */
    method ExpireNext(ghost v: View, expired: seq<int>, ghost rest: set<int>, transferId: int, now: int) returns (more: seq<int>)
      requires Shows() && log == view.log && view == AfterSweep(v, expired)
      requires transferId in v.live && transferId !in rest && LookedAt(v, expired, rest + {transferId}, now)
      modifies this`transfers, this`totalBufferedBytes, this`outstandingDeclaredBytes, this`log, this`view, transfers.Values
      ensures Shows() && log == view.log && transfers.Values <= old(transfers.Values)
      ensures view == AfterSweep(v, more) && LookedAt(v, more, rest, now)
    {
      SweepShape(v, expired);
      LookedAtOne(v, expired, rest, transferId, now);
      var gone := ExpireIfStale(transferId, now);
      return if gone then expired + [transferId] else expired;
    }

    lemma LookedAtOne(v: View, expired: seq<int>, rest: set<int>, id: int, now: int)
      requires id !in rest && LookedAt(v, expired, rest + {id}, now)
      ensures Stale(v, id, now) ==> LookedAt(v, expired + [id], rest, now)
      ensures !Stale(v, id, now) ==> LookedAt(v, expired, rest, now)
      ensures AfterSweep(v, expired + [id])
           == var w := AfterSweep(v, expired); w.(live := w.live - {id}, log := w.log + [TimedOut(id)])
    {
      assert (expired + [id])[..|expired|] == expired;
    }

    /** The sweep has looked at every transfer of `v` outside `rest`. */
    ghost predicate LookedAt(v: View, expired: seq<int>, rest: set<int>, now: int)
    {
      && (forall id :: id in expired ==> Stale(v, id, now) && id !in rest)
      && (forall id :: Stale(v, id, now) && id !in rest ==> id in expired)
      && (forall i, j :: 0 <= i < j < |expired| ==> expired[i] != expired[j])
    }

    method ExpireIfStale(transferId: int, now: int) returns (gone: bool)
      requires Shows() && transferId in transfers && log == view.log
      modifies this`transfers, this`totalBufferedBytes, this`outstandingDeclaredBytes, this`log, this`view, transfers.Values
      ensures Shows() && log == view.log && transfers.Values <= old(transfers.Values)
      ensures gone <==> Stale(old(view), transferId, now)
      ensures !gone ==> view == old(view)
      ensures gone ==> view == old(view).(live := old(view).live - {transferId}, log := old(view).log + [TimedOut(transferId)])
    {
      var transfer := transfers[transferId];
      if now - transfer.lastActivity > config.inactivityTimeoutMs {
        DropTransfer(transferId, transfer);
        log := log + [TimedOut(transferId)];
        view := view.(log := log);
        return true;
      }
      return false;
    }

    ghost predicate Stale(v: View, id: int, now: int)
    {
      id in v.live && now - v.live[id].lastActivity > config.inactivityTimeoutMs
    }

    static lemma {:induction false} SweepShape(v: View, expired: seq<int>)
      ensures AfterSweep(v, expired).hashing == v.hashing && AfterSweep(v, expired).tornDown == v.tornDown
      ensures forall id :: id in AfterSweep(v, expired).live <==> id in v.live && id !in expired
      ensures forall id :: id in AfterSweep(v, expired).live ==> AfterSweep(v, expired).live[id] == v.live[id]
      decreases |expired|
    {
      if expired != [] {
        SweepShape(v, expired[..|expired| - 1]);
      }
    }

    /** The next chained frame reaches its decryption: decoded, matched to the peer's session and to
        its derived nonce; anything else rejects that frame alone. */
    method StartNext() returns (error: Option<IngestError>)
      requires Valid() && phase.Idle? && ingestChain != []
      modifies this`ingestChain, this`phase
      ensures Valid() && view == old(view)
      ensures ingestChain == old(ingestChain)[1..]
      ensures var next := ToDecrypt(config, old(ingestChain)[0]);
              && phase == (if !tornDown && next.Ok? then Decrypting(next.value) else Idle)
              && error == (if !tornDown && next.Err? then Some(next.error) else None)
    {
      var bytes := ingestChain[0];
      ingestChain := ingestChain[1..];
      if tornDown {
        return None;
      }
      var next := CheckFrame(config, bytes);
      if next.Err? {
        return Some(next.error);
      }
      phase := Decrypting(next.value);
      return None;
    }

    static method CheckFrame(config: Config, bytes: Bytes) returns (next: Result<Codec.FrameAad, IngestError>)
      ensures next == ToDecrypt(config, bytes)
    {
      var decoded := Codec.DecodeWireFrame(bytes);
      if decoded.Err? {
        return Err(MalformedFrame);
      }
      var frame := decoded.value;
      var aad := frame.header.aad;
      if aad.senderSessionId != config.peerSessionId {
        return Err(WrongSession);
      }
      var expected := Codec.DeriveNonce(aad.senderSessionId, aad.senderSequence);
      if expected.Err? || frame.nonce != expected.value {
        return Err(MalformedFrame);
      }
      return Ok(aad);
    }

    /** The decryption resolves: `None` when authentication failed. Only an authentic frame the replay
        window accepts reaches the transfers, and none does after teardown. */
    method DecryptResolved(plaintext: Option<Bytes>, now: int) returns (error: Option<IngestError>)
      requires Valid() && replayWindow.Valid() && phase.Decrypting?
      modifies this`transfers, this`totalBufferedBytes, this`outstandingDeclaredBytes, this`phase, this`log, this`view, this`events, transfers.Values
      modifies replayWindow, replayWindow.slots
      ensures Valid() && replayWindow.Valid() && !phase.Decrypting?
      ensures replayWindow.accepted == Replay.AfterFrame(replayWindow.size, old(replayWindow.accepted),
                                         Replay.Frame(plaintext.Some?, old(phase.aad).senderSequence))
      ensures var released := plaintext.Some? &&
                Replay.Judge(replayWindow.size, old(replayWindow.accepted), old(phase.aad).senderSequence) == Replay.Accepted;
              if !released then view == old(view) && error == Some(MalformedFrame)
              else if tornDown then view == old(view) && error == None
              else Served(old(view), Request(config, old(phase.aad), plaintext.value, now), error)
      ensures old(view).hashing.None? && (replayWindow.size == REPLAY_WINDOW ==>
                view == Handed(config, old(replayWindow.accepted), old(view), old(phase.aad), plaintext, now))
    {
      var aad := phase.aad;
      var released := replayWindow.Admit(plaintext.Some?, aad.senderSequence);
      phase := Idle;
      if !released {
        return Some(MalformedFrame);
      }
      if tornDown {
        return None;
      }
      error := ServeRequest(Request(config, aad, plaintext.value, now));
    }

    method ServeRequest(request: Result<Event, IngestError>) returns (error: Option<IngestError>)
      requires Valid() && phase.Idle? && !tornDown
      requires request.Ok? ==> Enabled(view, request.value)
                               && !request.value.HashResolved? && !request.value.Swept? && !request.value.TornDown?
      modifies this`transfers, this`totalBufferedBytes, this`outstandingDeclaredBytes, this`phase, this`log, this`view, this`events, transfers.Values
      ensures Valid() && !phase.Decrypting? && Served(old(view), request, error)
    {
      match request {
        case Err(e) => return Some(e);
        case Ok(event) => error := Serve(event);
      }
    }

    method Serve(event: Event) returns (error: Option<IngestError>)
      requires Valid() && phase.Idle? && !tornDown && Enabled(view, event)
      requires !event.HashResolved? && !event.Swept? && !event.TornDown?
      modifies this`transfers, this`totalBufferedBytes, this`outstandingDeclaredBytes, this`phase, this`log, this`view, this`events, transfers.Values
      ensures Valid() && !phase.Decrypting?
      ensures view == Next(config.sha, old(view), event)
      ensures error == Refusal(old(view), event)
    {
      ghost var before := view;
      error := Perform(event);
      Record(before, event);
    }

    /** The step that was carried out goes on record. */
    ghost method Record(before: View, event: Event)
      requires Mirrors() && Reaches(config.sha, events, before)
      requires Enabled(before, event) && view == Next(config.sha, before, event)
      modifies this`events
      ensures Valid()
    {
      ReachesNext(config.sha, events, before, event);
      events := events + [event];
    }

    /** Carry out what a frame asks for. */
    method Perform(event: Event) returns (error: Option<IngestError>)
      requires Valid() && phase.Idle? && !tornDown && Enabled(view, event)
      requires !event.HashResolved? && !event.Swept? && !event.TornDown?
      modifies this`transfers, this`totalBufferedBytes, this`outstandingDeclaredBytes, this`phase, this`log, this`view, transfers.Values
      ensures Mirrors() && !phase.Decrypting?
      ensures view == Next(config.sha, old(view), event)
      ensures error == Refusal(old(view), event)
    {
      match event {
        case FrameText(b) =>
          Report(TextReceived(b));
        case FrameControl(subtype, payload) =>
          Report(ControlReceived(subtype, payload));
        case Cancelled(transferId) =>
          DropIfLive(transferId);
        case FrameManifest(transferId, manifest, now) =>
          error := HandleManifest(transferId, manifest, now);
          return;
        case FrameChunk(transferId, chunkId, chunk, now) =>
          error := HandleChunk(transferId, chunkId, chunk, now);
          return;
      }
      return None;
    }

    method DropIfLive(transferId: int)
      requires Shows()
      modifies this`transfers, this`totalBufferedBytes, this`outstandingDeclaredBytes, this`view, transfers.Values
      ensures Shows() && view == old(view).(live := old(view).live - {transferId})
    {
      if transferId in transfers {
        DropTransfer(transferId, transfers[transferId]);
      } else {
        assert view.live - {transferId} == view.live;
      }
    }

    method Report(event: HostEvent)
      requires Shows() && log == view.log
      modifies this`log, this`view
      ensures Shows() && log == view.log && view == old(view).(log := old(view).log + [event])
    {
      log := log + [event];
      view := view.(log := log);
    }

    /** A request either is rejected for itself, or takes its step of the specification. */
    ghost predicate Served(before: View, request: Result<Event, IngestError>, error: Option<IngestError>)
      reads this`view
    {
      match request
      case Err(e) => view == before && error == Some(e)
      case Ok(event) =>
        Enabled(before, event) && view == Next(config.sha, before, event) && error == Refusal(before, event)
    }

    static ghost function Refusal(v: View, event: Event): Option<IngestError>
    {
      match event
      case FrameManifest(id, m, _) => if ManifestRefusal(v, id, m).Some? then Some(Refused(ManifestRefusal(v, id, m).value)) else None
      case FrameChunk(id, i, b, _) => if ChunkRefusal(v, id, i, b).Some? then Some(Refused(ChunkRefusal(v, id, i, b).value)) else None
      case _ => None
    }

    // ----- Transfers -----

    method HandleManifest(transferId: int, manifest: FileManifest, now: int) returns (error: Option<IngestError>)
      requires Shows() && phase.Idle? && Canonical(manifest) && manifest.transferId == transferId
      modifies this`transfers, this`outstandingDeclaredBytes, this`phase, this`view
      ensures Shows() && !phase.Decrypting?
      ensures view == AfterManifest(old(view), transferId, manifest, now)
      ensures view.hashing == if phase.Hashing? then Parking() else old(view).hashing
      ensures error == Refusal(old(view), FrameManifest(transferId, manifest, now))
    {
      ghost var before := view;
      CommittedIsDeclared(before.live);
      assert |transfers.Keys| == |before.live.Keys|;
      if transferId in transfers {
        return Some(Refused(TransferInactive));
      }
      if |transfers| >= MAX_CONCURRENT_TRANSFERS {
        return Some(Refused(ConcurrentTransfersExceeded));
      }
      if totalBufferedBytes + outstandingDeclaredBytes + manifest.size > MAX_INCOMPLETE_TRANSFER_BYTES {
        return Some(Refused(BudgetExceeded));
      }
      var transfer := new ActiveTransfer(manifest, now);
      ghost var t := AdmittedFacts(before, transferId, manifest, now);
      Admit(transferId, transfer, t);
      if manifest.chunkCount == 0 {
        Park(transferId, transfer, t);
      }
      return None;
    }

    /** Enter a new transfer and reserve its declared size. */
    method Admit(transferId: int, transfer: ActiveTransfer, ghost t: Transfer)
      requires Shows() && phase.Idle? && transferId !in transfers && transfer !in transfers.Values
      requires transfer.manifest.transferId == transferId && transfer.Records(t)
      requires Total(view.live[transferId := t], ReceivedBy) == Total(view.live, ReceivedBy)
      requires Total(view.live[transferId := t], MissingFrom) == Total(view.live, MissingFrom) + transfer.manifest.size
      modifies this`transfers, this`outstandingDeclaredBytes, this`view
      ensures Shows() && transfers == old(transfers)[transferId := transfer]
      ensures view == old(view).(live := old(view).live[transferId := t])
    {
      transfers := transfers[transferId := transfer];
      outstandingDeclaredBytes := outstandingDeclaredBytes + transfer.manifest.size;
      view := view.(live := view.live[transferId := t]);
    }

    /** The synchronous part of `completeTransfer`: reassemble, then wait for the hash. */
    method Park(transferId: int, transfer: ActiveTransfer, ghost t: Transfer)
      requires Shows() && transferId in transfers && transfers[transferId] == transfer && view.live[transferId] == t
      requires WellFormed(transferId, t) && Complete(t)
      modifies this`phase, this`view
      ensures Shows() && phase == Hashing(transferId, transfer, Contents(t))
      ensures view == old(view).(hashing := Some(Job(transferId, t.manifest, Contents(t))))
    {
      var reassembled := Reassemble(transfer);
      phase := Hashing(transferId, transfer, reassembled);
      view := view.(hashing := Some(Job(transferId, t.manifest, reassembled)));
    }

    /** The chunk guards that follow the canonical-length and duplicate checks can never fire: each
        is proved dead where the source would throw. */
    method HandleChunk(transferId: int, chunkId: int, plaintext: Bytes, now: int) returns (error: Option<IngestError>)
      requires Shows() && phase.Idle? && Reaches(config.sha, events, view)
      modifies this`totalBufferedBytes, this`outstandingDeclaredBytes, this`phase, this`view, transfers.Values
      ensures Shows() && !phase.Decrypting?
      ensures view == AfterChunk(old(view), transferId, chunkId, plaintext, now)
      ensures view.hashing == if phase.Hashing? then Parking() else old(view).hashing
      ensures error == Refusal(old(view), FrameChunk(transferId, chunkId, plaintext, now))
    {
      error := RefuseChunk(transferId, chunkId, plaintext);
      if error.None? {
        AcceptChunk(transferId, chunkId, plaintext, now);
      }
    }

    method RefuseChunk(transferId: int, chunkId: int, plaintext: Bytes) returns (error: Option<IngestError>)
      requires Shows() && phase.Idle? && Reaches(config.sha, events, view)
      ensures error == if ChunkRefusal(view, transferId, chunkId, plaintext).Some?
                       then Some(Refused(ChunkRefusal(view, transferId, chunkId, plaintext).value)) else None
    {
      if transferId !in transfers {
        return Some(Refused(UnknownTransfer));
      }
      ReachedIsSound(config.sha, events, view);
      var transfer := transfers[transferId];
      if chunkId < 0 || chunkId >= transfer.manifest.chunkCount {
        return Some(Refused(ChunkOutOfRange));
      }
      var (start, end) := ChunkBoundaries(transfer.manifest.size, chunkId);
      if |plaintext| != end - start {
        return Some(Refused(WrongLength));
      }
      if transfer.chunks[chunkId].Some? {
        return Some(Refused(DuplicateChunk));
      }
      return None;
    }

    method AcceptChunk(transferId: int, chunkId: int, plaintext: Bytes, now: int)
      requires Shows() && phase.Idle? && Reaches(config.sha, events, view)
      requires ChunkRefusal(view, transferId, chunkId, plaintext).None?
      modifies this`totalBufferedBytes, this`outstandingDeclaredBytes, this`phase, this`view, transfers.Values
      ensures Shows() && !phase.Decrypting?
      ensures view == AfterChunk(old(view), transferId, chunkId, plaintext, now)
      ensures view.hashing == if phase.Hashing? then Parking() else old(view).hashing
    {
      ghost var t := AcceptedFacts(config.sha, events, view, transferId, chunkId, plaintext, now);
      var transfer := transfers[transferId];
      if transfer.receivedBytes + |plaintext| > transfer.manifest.size {
        assert false;
      }
      if totalBufferedBytes + |plaintext| > MAX_INCOMPLETE_TRANSFER_BYTES {
        assert false;
      }
      Store(transferId, transfer, chunkId, plaintext, now, t);
      if transfer.receivedCount == transfer.manifest.chunkCount {
        Park(transferId, transfer, t);
      }
    }

    /** Put a chunk in its slot: its bytes move from outstanding to buffered. */
    method Store(transferId: int, transfer: ActiveTransfer, chunkId: nat, plaintext: Bytes, now: int, ghost t: Transfer)
      requires Shows() && phase.Idle? && transferId in transfers && transfers[transferId] == transfer
      requires chunkId < |view.live[transferId].chunks|
      requires t == view.live[transferId].(chunks := view.live[transferId].chunks[chunkId := Some(plaintext)], lastActivity := now)
      requires Received(t.chunks) == Received(view.live[transferId].chunks) + |plaintext|
      requires Filled(t.chunks) == Filled(view.live[transferId].chunks) + 1
      requires Total(view.live[transferId := t], ReceivedBy) == Total(view.live, ReceivedBy) + |plaintext|
      requires Total(view.live[transferId := t], MissingFrom) == Total(view.live, MissingFrom) - |plaintext|
      modifies this`totalBufferedBytes, this`outstandingDeclaredBytes, this`view, transfer
      ensures Shows() && transfer.Records(t)
      ensures view == old(view).(live := old(view).live[transferId := t])
    {
      ghost var before, after := view.live, view.live[transferId := t];
      totalBufferedBytes := totalBufferedBytes + |plaintext|;
      outstandingDeclaredBytes := outstandingDeclaredBytes - |plaintext|;
      view := view.(live := after);
      StoreChunk(transferId, transfer, chunkId, plaintext, now, before, after);
    }

    /** The table shows `live`. */
    ghost predicate Records(live: map<int, Transfer>)
      reads this`transfers, transfers.Values
    {
      live.Keys == transfers.Keys
      && forall id :: id in transfers ==> transfers[id].manifest.transferId == id && transfers[id].Records(live[id])
    }

    method StoreChunk(transferId: int, transfer: ActiveTransfer, chunkId: nat, plaintext: Bytes, now: int,
                      ghost before: map<int, Transfer>, ghost after: map<int, Transfer>)
      requires Records(before) && transferId in transfers && transfers[transferId] == transfer && chunkId < |before[transferId].chunks|
      requires var t := before[transferId].(chunks := before[transferId].chunks[chunkId := Some(plaintext)], lastActivity := now);
               after == before[transferId := t] && Filled(t.chunks) == Filled(before[transferId].chunks) + 1
               && Received(t.chunks) == Received(before[transferId].chunks) + |plaintext|
      modifies transfer
      ensures Records(after)
    {
      transfer.Take(chunkId, plaintext, now, before[transferId], after[transferId]);
    }

    /** The reassembly loop: chunk by chunk at a moving offset. Neither of its guards can fire. */
    static method Reassemble(transfer: ActiveTransfer) returns (data: Bytes)
      requires WellFormed(transfer.manifest.transferId, transfer.Value()) && Complete(transfer.Value())
      ensures data == Contents(transfer.Value()) && |data| == transfer.manifest.size
    {
      ghost var parts := Parts(transfer.Value());
      var size := transfer.manifest.size;
      var reassembled := new byte[size](_ => 0);
      var offset := 0;
      for i := 0 to transfer.manifest.chunkCount
        invariant offset == if i == 0 then 0 else ChunkBoundaries(size, i - 1).1
        invariant offset <= size
        invariant reassembled[..offset] == Joined(parts[..i])
      {
        if transfer.chunks[i].None? {
          assert false;
        }
        var chunk := transfer.chunks[i].value;
        ChunksTile(size, i);
        if i > 0 {
          ChunksTile(size, i - 1);
        }
        SetBytes(reassembled, offset, chunk);
        offset := offset + |chunk|;
        assert parts[..i + 1][..i] == parts[..i];
      }
      if size > 0 {
        ChunksTile(size, transfer.manifest.chunkCount - 1);
      }
      if offset != size {
        assert false;
      }
      assert parts[..transfer.manifest.chunkCount] == parts;
      return reassembled[..];
    }

    /** The content hash resolves. A hash mismatch drops the transfer; a transfer that a cancel, a
        sweep or a teardown removed meanwhile is not reported and not subtracted again. */
    method HashResolved() returns (error: Option<IngestError>)
      requires Valid() && phase.Hashing?
      modifies this`transfers, this`totalBufferedBytes, this`outstandingDeclaredBytes, this`phase, this`log, this`view, this`events, Objects()
      ensures Valid() && phase.Idle?
      ensures view == Next(config.sha, old(view), TransferSpec.HashResolved)
      ensures error == if config.sha(old(phase.reassembled)) != old(phase.transfer.manifest).contentHash
                       then Some(Refused(HashMismatch)) else None
    {
      error := Settle();
      Record(old(view), TransferSpec.HashResolved);
    }

    /** The part of `completeTransfer` after the hash. */
    method Settle() returns (error: Option<IngestError>)
      requires Mirrors() && phase.Hashing?
      modifies this`transfers, this`totalBufferedBytes, this`outstandingDeclaredBytes, this`phase, this`log, this`view, phase.transfer`dropped
      ensures Mirrors() && phase.Idle?
      ensures view == AfterHash(config.sha, old(view))
      ensures error == if config.sha(old(phase.reassembled)) != old(phase.transfer.manifest).contentHash
                       then Some(Refused(HashMismatch)) else None
    {
      var transferId, transfer, reassembled := phase.transferId, phase.transfer, phase.reassembled;
      var mismatch := config.sha(reassembled) != transfer.manifest.contentHash;
      var gone := tornDown || transferId !in transfers;
      DropTransfer(transferId, transfer);
      Unpark(if mismatch || gone then [] else [FileCompleted(transfer.manifest, reassembled)]);
      return if mismatch then Some(Refused(HashMismatch)) else None;
    }

    /** Nothing is parked on a hash any more. */
    method Unpark(reported: seq<HostEvent>)
      requires Shows() && log == view.log && view.tornDown == tornDown
      modifies this`phase, this`log, this`view
      ensures Mirrors() && phase.Idle? && view == old(view).(hashing := None, log := old(view).log + reported)
    {
      phase := Idle;
      log := log + reported;
      view := view.(hashing := None, log := log);
    }

    /** `dropTransfer`: subtract a live transfer once; a dropped one is left alone. */
    method DropTransfer(transferId: int, transfer: ActiveTransfer)
      requires Shows() && Latched(transferId, transfer)
      modifies this`transfers, this`totalBufferedBytes, this`outstandingDeclaredBytes, this`view, transfer`dropped
      ensures Shows() && transfer.dropped
      ensures transfers == old(transfers) - {transferId}
      ensures view == old(view).(live := old(view).live - {transferId})
    {
      if transfer.dropped {
        assert transfers - {transferId} == transfers && view.live - {transferId} == view.live;
        return;
      }
      Remove(transferId, transfer);
    }

    /** A live transfer leaves the table, and the counters lose what it accounted for. */
    method Remove(transferId: int, transfer: ActiveTransfer)
      requires Shows() && transferId in transfers && transfers[transferId] == transfer
      modifies this`transfers, this`totalBufferedBytes, this`outstandingDeclaredBytes, this`view, transfer`dropped
      ensures Shows() && transfer.dropped
      ensures transfers == old(transfers) - {transferId}
      ensures view == old(view).(live := old(view).live - {transferId})
    {
      TotalRemove(view.live, transferId, ReceivedBy);
      TotalRemove(view.live, transferId, MissingFrom);
      transfer.dropped := true;
      totalBufferedBytes := totalBufferedBytes - transfer.receivedBytes;
      outstandingDeclaredBytes := outstandingDeclaredBytes - (transfer.manifest.size - transfer.receivedBytes);
      transfers := transfers - {transferId};
      view := view.(live := view.live - {transferId});
    }
  }
}
