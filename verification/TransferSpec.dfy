/** What the framing receiver does to its transfers, on values and without byte counters: the
    specification the counter-keeping `FrameReceiver` refines. */
module TransferSpec {
  import opened Bytes
  import opened Manifest

  const MAX_CONCURRENT_TRANSFERS: int := 4

  datatype Transfer = Transfer(manifest: FileManifest, chunks: seq<Option<Bytes>>, lastActivity: int)

  datatype HostEvent =
    | TextReceived(plaintext: Bytes)
    | ControlReceived(subtype: int, payload: Bytes)
    | FileCompleted(manifest: FileManifest, data: Bytes)
    | TimedOut(transferId: int)

  /** A reassembled transfer parked on its content hash. */
  datatype Job = Job(transferId: int, manifest: FileManifest, data: Bytes)

  datatype View = View(live: map<int, Transfer>, hashing: Option<Job>, tornDown: bool, log: seq<HostEvent>)

  datatype Fault =
    | TransferInactive | ConcurrentTransfersExceeded | BudgetExceeded
    | UnknownTransfer | ChunkOutOfRange | WrongLength | DuplicateChunk | HashMismatch

  // ----- Counting bytes -----

  function Received(chunks: seq<Option<Bytes>>): nat
  {
    if chunks == [] then 0
    else Received(chunks[..|chunks| - 1]) + (match chunks[|chunks| - 1] case None => 0 case Some(b) => |b|)
  }

  function Filled(chunks: seq<Option<Bytes>>): nat
  {
    if chunks == [] then 0
    else Filled(chunks[..|chunks| - 1]) + (if chunks[|chunks| - 1].Some? then 1 else 0)
  }

  function ReceivedBy(t: Transfer): int { Received(t.chunks) }
  function MissingFrom(t: Transfer): int { t.manifest.size - Received(t.chunks) }
  function Declared(t: Transfer): int { t.manifest.size }

  lemma SomeKey(live: map<int, Transfer>)
    ensures live == map[] || exists k :: k in live
  {
    if forall k :: k !in live {
      assert live == map[];
    }
  }

  ghost function Total(live: map<int, Transfer>, f: Transfer -> int): int
    decreases |live|
  {
    if live == map[] then 0
    else
      SomeKey(live);
      var k :| k in live; f(live[k]) + Total(live - {k}, f)
  }

  lemma {:induction false} TotalRemove(live: map<int, Transfer>, k: int, f: Transfer -> int)
    requires k in live
    ensures Total(live, f) == f(live[k]) + Total(live - {k}, f)
    decreases |live|
  {
    var j :| j in live && Total(live, f) == f(live[j]) + Total(live - {j}, f);
    if j != k {
      TotalRemove(live - {j}, k, f);
      TotalRemove(live - {k}, j, f);
      assert live - {j} - {k} == live - {k} - {j};
    }
  }

  lemma TotalUpdate(live: map<int, Transfer>, k: int, t: Transfer, f: Transfer -> int)
    ensures Total(live[k := t], f) == Total(live, f) + f(t) - if k in live then f(live[k]) else 0
  {
    TotalRemove(live[k := t], k, f);
    assert live[k := t] - {k} == live - {k};
    if k in live {
      TotalRemove(live, k, f);
    } else {
      assert live - {k} == live;
    }
  }

  lemma {:induction false} TotalBound(live: map<int, Transfer>, f: Transfer -> int)
    requires forall id :: id in live ==> f(live[id]) >= 0
    ensures Total(live, f) >= 0
    ensures forall id :: id in live ==> f(live[id]) <= Total(live, f)
    decreases |live|
  {
    forall id | id in live
      ensures 0 <= f(live[id]) <= Total(live, f)
    {
      TotalRemove(live, id, f);
      TotalBound(live - {id}, f);
    }
  }

  /** Buffered plus outstanding is what the admitted manifests declared. */
  lemma {:induction false} CommittedIsDeclared(live: map<int, Transfer>)
    ensures Total(live, ReceivedBy) + Total(live, MissingFrom) == Total(live, Declared)
    decreases |live|
  {
    if live != map[] {
      SomeKey(live);
      var k :| k in live;
      TotalRemove(live, k, ReceivedBy);
      TotalRemove(live, k, MissingFrom);
      TotalRemove(live, k, Declared);
      CommittedIsDeclared(live - {k});
    }
  }

  // ----- One transfer -----

  predicate WellFormed(id: int, t: Transfer)
  {
    && Canonical(t.manifest) && t.manifest.transferId == id
    && |t.chunks| == t.manifest.chunkCount
    && forall i :: 0 <= i < |t.chunks| && t.chunks[i].Some? ==> |t.chunks[i].value| == ChunkLength(t.manifest.size, i)
  }

  predicate Complete(t: Transfer)
  {
    forall i :: 0 <= i < |t.chunks| ==> t.chunks[i].Some?
  }

  function Parts(t: Transfer): (parts: seq<Bytes>)
    requires Complete(t)
    ensures |parts| == |t.chunks|
  {
    seq(|t.chunks|, i requires 0 <= i < |t.chunks| => t.chunks[i].value)
  }

  function Contents(t: Transfer): Bytes
    requires Complete(t)
  {
    Joined(Parts(t))
  }

  /** Canonical chunks never add up to more than the declared size, and to exactly that size
      once all are there. */
  lemma {:induction false} ReceivedBound(size: nat, chunks: seq<Option<Bytes>>)
    requires |chunks| <= ChunkCount(size)
    requires forall i :: 0 <= i < |chunks| && chunks[i].Some? ==> |chunks[i].value| == ChunkLength(size, i)
    ensures Received(chunks) <= if chunks == [] then 0 else ChunkBoundaries(size, |chunks| - 1).1
    ensures Filled(chunks) <= |chunks|
    ensures Filled(chunks) == |chunks| <==> forall i :: 0 <= i < |chunks| ==> chunks[i].Some?
    ensures Filled(chunks) == |chunks| ==> Received(chunks) == if chunks == [] then 0 else ChunkBoundaries(size, |chunks| - 1).1
    decreases |chunks|
  {
    if chunks != [] {
      var last := |chunks| - 1;
      ReceivedBound(size, chunks[..last]);
      ChunksTile(size, last);
      if last > 0 {
        ChunksTile(size, last - 1);
      }
      assert forall i :: 0 <= i < last ==> chunks[..last][i] == chunks[i];
    }
  }

  lemma WellFormedBound(id: int, t: Transfer)
    requires WellFormed(id, t)
    ensures Received(t.chunks) <= t.manifest.size
    ensures Filled(t.chunks) == t.manifest.chunkCount <==> Complete(t)
    ensures Complete(t) ==> Received(t.chunks) == t.manifest.size
  {
    ReceivedBound(t.manifest.size, t.chunks);
    if t.chunks != [] {
      ChunksTile(t.manifest.size, |t.chunks| - 1);
    }
  }

  /** Storing a chunk in an empty slot adds its bytes and one to the count. */
  lemma {:induction false} StoreCounts(chunks: seq<Option<Bytes>>, i: nat, b: Bytes)
    requires i < |chunks| && chunks[i].None?
    ensures Received(chunks[i := Some(b)]) == Received(chunks) + |b|
    ensures Filled(chunks[i := Some(b)]) == Filled(chunks) + 1
    decreases |chunks|
  {
    var last := |chunks| - 1;
    var after := chunks[i := Some(b)];
    if i == last {
      assert after[..last] == chunks[..last];
    } else {
      StoreCounts(chunks[..last], i, b);
      assert after[..last] == chunks[..last][i := Some(b)];
    }
  }

  lemma {:induction false} EmptyCounts(chunks: seq<Option<Bytes>>)
    requires forall i :: 0 <= i < |chunks| ==> chunks[i].None?
    ensures Received(chunks) == 0 && Filled(chunks) == 0
    decreases |chunks|
  {
    if chunks != [] {
      EmptyCounts(chunks[..|chunks| - 1]);
    }
  }

  lemma {:induction false} JoinedLength(size: nat, parts: seq<Bytes>)
    requires |parts| <= ChunkCount(size)
    requires forall i :: 0 <= i < |parts| ==> |parts[i]| == ChunkLength(size, i)
    ensures |Joined(parts)| == if parts == [] then 0 else ChunkBoundaries(size, |parts| - 1).1
    decreases |parts|
  {
    if parts != [] {
      var last := |parts| - 1;
      JoinedLength(size, parts[..last]);
      ChunksTile(size, last);
      if last > 0 {
        ChunksTile(size, last - 1);
      }
    }
  }

  lemma ContentsLength(id: int, t: Transfer)
    requires WellFormed(id, t) && Complete(t)
    ensures |Contents(t)| == t.manifest.size
  {
    var parts := Parts(t);
    JoinedLength(t.manifest.size, parts);
    if parts != [] {
      ChunksTile(t.manifest.size, |parts| - 1);
    }
  }

  // ----- The steps -----

  datatype Event =
    | FrameText(plaintext: Bytes)
    | FrameControl(subtype: int, payload: Bytes)
    | FrameManifest(transferId: int, manifest: FileManifest, now: int)
    | FrameChunk(transferId: int, index: int, plaintext: Bytes, now: int)
    | HashResolved
    | Cancelled(transferId: int)
    | Swept(expired: seq<int>)
    | TornDown

  ghost function ManifestRefusal(v: View, id: int, m: FileManifest): Option<Fault>
  {
    if id in v.live then Some(TransferInactive)
    else if |v.live| >= MAX_CONCURRENT_TRANSFERS then Some(ConcurrentTransfersExceeded)
    else if Total(v.live, Declared) + m.size > MAX_INCOMPLETE_TRANSFER_BYTES then Some(BudgetExceeded)
    else None
  }

  function Opened(m: FileManifest, now: int): Transfer
    requires m.chunkCount >= 0
  {
    Transfer(m, seq(m.chunkCount, _ => None), now)
  }

  ghost function AfterManifest(v: View, id: int, m: FileManifest, now: int): View
    requires m.chunkCount >= 0
  {
    if ManifestRefusal(v, id, m).Some? then v
    else
      v.(live := v.live[id := Opened(m, now)],
         hashing := if m.chunkCount == 0 then Some(Job(id, m, [])) else v.hashing)
  }

  ghost function ChunkRefusal(v: View, id: int, index: int, b: Bytes): Option<Fault>
  {
    if id !in v.live then Some(UnknownTransfer)
    else
      var t := v.live[id];
      if !(0 <= index < t.manifest.chunkCount) then Some(ChunkOutOfRange)
      else if t.manifest.size < 0 || |b| != ChunkBoundaries(t.manifest.size, index).1 - ChunkBoundaries(t.manifest.size, index).0
      then Some(WrongLength)
      else if index < |t.chunks| && t.chunks[index].Some? then Some(DuplicateChunk)
      else None
  }

  function Stored(t: Transfer, index: int, b: Bytes, now: int): Transfer
    requires 0 <= index < |t.chunks|
  {
    t.(chunks := t.chunks[index := Some(b)], lastActivity := now)
  }

  ghost function AfterChunk(v: View, id: int, index: int, b: Bytes, now: int): View
  {
    if ChunkRefusal(v, id, index, b).Some? || index >= |v.live[id].chunks| then v
    else
      var t := Stored(v.live[id], index, b, now);
      v.(live := v.live[id := t],
         hashing := if Complete(t) then Some(Job(id, t.manifest, Contents(t))) else v.hashing)
  }

  /** A resumed completion reports the file only if its hash matches and the transfer is still live. */
  function AfterHash(sha: Bytes -> Bytes, v: View): View
  {
    match v.hashing
    case None => v
    case Some(job) =>
      var settled := v.(hashing := None, live := v.live - {job.transferId});
      if sha(job.data) == job.manifest.contentHash && !v.tornDown && job.transferId in v.live
      then settled.(log := v.log + [FileCompleted(job.manifest, job.data)])
      else settled
  }

  function AfterSweep(v: View, expired: seq<int>): View
  {
    if expired == [] then v
    else
      var w := AfterSweep(v, expired[..|expired| - 1]);
      var id := expired[|expired| - 1];
      w.(live := w.live - {id}, log := w.log + [TimedOut(id)])
  }

  /** Serialized ingest: no frame is handled while a completion waits for its hash, and none after
      teardown. A decoded manifest passed the manifest codec for its own frame's id. */
  predicate Enabled(v: View, e: Event)
  {
    match e
    case FrameText(_) => v.hashing.None? && !v.tornDown
    case FrameControl(_, _) => v.hashing.None? && !v.tornDown
    case FrameManifest(id, m, _) =>
      v.hashing.None? && !v.tornDown && Canonical(m) && m.transferId == id
    case FrameChunk(_, _, _, _) => v.hashing.None? && !v.tornDown
    case HashResolved => v.hashing.Some?
    case Cancelled(_) => !v.tornDown
    case Swept(_) => !v.tornDown
    case TornDown => true
  }

  ghost function Next(sha: Bytes -> Bytes, v: View, e: Event): View
    requires Enabled(v, e)
  {
    match e
    case FrameText(b) => v.(log := v.log + [TextReceived(b)])
    case FrameControl(s, b) => v.(log := v.log + [ControlReceived(s, b)])
    case FrameManifest(id, m, now) => AfterManifest(v, id, m, now)
    case FrameChunk(id, i, b, now) => AfterChunk(v, id, i, b, now)
    case HashResolved => AfterHash(sha, v)
    case Cancelled(id) => v.(live := v.live - {id})
    case Swept(expired) => AfterSweep(v, expired)
    case TornDown => v.(live := map[], tornDown := true)
  }
}

/** What every run of the receiver keeps, and what a sender's file becomes at the other end. */
module TransferRuns {
  import opened Bytes
  import opened Manifest
  import opened TransferSpec

  // ----- The invariant of every run -----

  ghost predicate Inv(v: View)
  {
    && |v.live| <= MAX_CONCURRENT_TRANSFERS
    && Total(v.live, Declared) <= MAX_INCOMPLETE_TRANSFER_BYTES
    && (v.tornDown ==> v.live == map[])
    && (forall id :: id in v.live ==> WellFormed(id, v.live[id]))
    && (forall id :: id in v.live && Complete(v.live[id]) ==> v.hashing.Some? && v.hashing.value.transferId == id)
    && (v.hashing.Some? ==> Parked(v, v.hashing.value))
  }

  ghost predicate Parked(v: View, job: Job)
    requires forall id :: id in v.live ==> WellFormed(id, v.live[id])
  {
    && Canonical(job.manifest) && job.manifest.transferId == job.transferId
    && |job.data| == job.manifest.size
    && (job.transferId in v.live ==>
          v.live[job.transferId].manifest == job.manifest
          && Complete(v.live[job.transferId]) && Contents(v.live[job.transferId]) == job.data)
  }

  lemma Dropped(live: map<int, Transfer>, id: int)
    requires forall k :: k in live ==> live[k].manifest.size >= 0
    ensures Total(live - {id}, Declared) <= Total(live, Declared)
    ensures |live - {id}| <= |live|
  {
    if id in live {
      TotalRemove(live, id, Declared);
      assert (live - {id}).Keys == live.Keys - {id};
    } else {
      assert live - {id} == live;
    }
  }

  lemma DropKeeps(v: View, id: int, w: View)
    requires Inv(v)
    requires w.live == v.live - {id} && w.tornDown == v.tornDown
    requires w.hashing == v.hashing || (v.hashing.Some? && v.hashing.value.transferId == id && w.hashing.None?)
    ensures Inv(w)
  {
    Dropped(v.live, id);
  }

  lemma {:induction false} SweepKeeps(v: View, expired: seq<int>)
    requires Inv(v)
    ensures Inv(AfterSweep(v, expired))
    ensures AfterSweep(v, expired).hashing == v.hashing && AfterSweep(v, expired).tornDown == v.tornDown
    ensures forall id :: id in AfterSweep(v, expired).live <==> id in v.live && id !in expired
    ensures forall id :: id in AfterSweep(v, expired).live ==> AfterSweep(v, expired).live[id] == v.live[id]
    decreases |expired|
  {
    if expired != [] {
      var last := |expired| - 1;
      SweepKeeps(v, expired[..last]);
      assert forall id :: id in expired <==> id in expired[..last] || id == expired[last];
      DropKeeps(AfterSweep(v, expired[..last]), expired[last], AfterSweep(v, expired));
    }
  }

  lemma OpenedFacts(id: int, m: FileManifest, now: int)
    requires Canonical(m) && m.transferId == id
    ensures WellFormed(id, Opened(m, now))
    ensures Complete(Opened(m, now)) <==> m.chunkCount == 0
    ensures m.chunkCount == 0 ==> m.size == 0 && Contents(Opened(m, now)) == []
  {
    var t := Opened(m, now);
    if m.chunkCount > 0 {
      assert t.chunks[0].None?;
    } else {
      assert Parts(t) == [];
    }
  }

  lemma ManifestKeeps(v: View, id: int, m: FileManifest, now: int)
    requires Inv(v) && v.hashing.None? && !v.tornDown && Canonical(m) && m.transferId == id
    ensures Inv(AfterManifest(v, id, m, now))
  {
    if ManifestRefusal(v, id, m).None? {
      var t := Opened(m, now);
      OpenedFacts(id, m, now);
      TotalUpdate(v.live, id, t, Declared);
      assert v.live[id := t].Keys == v.live.Keys + {id};
    }
  }

  lemma ChunkKeeps(v: View, id: int, index: int, b: Bytes, now: int)
    requires Inv(v) && v.hashing.None? && !v.tornDown
    ensures Inv(AfterChunk(v, id, index, b, now))
  {
    if ChunkRefusal(v, id, index, b).None? {
      var t := Stored(v.live[id], index, b, now);
      TotalUpdate(v.live, id, t, Declared);
      assert v.live[id := t].Keys == v.live.Keys;
      assert WellFormed(id, t);
      if Complete(t) {
        ContentsLength(id, t);
      }
    }
  }

  /** A canonical chunk that is neither unknown, out of range nor a duplicate always fits: the two
      size guards the receiver checks after those can never refuse it. */
  lemma ChunkFits(v: View, id: int, index: int, b: Bytes)
    requires Inv(v) && ChunkRefusal(v, id, index, b).None?
    ensures index < |v.live[id].chunks|
    ensures Received(v.live[id].chunks) + |b| <= v.live[id].manifest.size
    ensures Total(v.live, ReceivedBy) + |b| <= MAX_INCOMPLETE_TRANSFER_BYTES
  {
    var t := v.live[id];
    StoreCounts(t.chunks, index, b);
    WellFormedBound(id, Stored(t, index, b, 0));
    CommittedIsDeclared(v.live);
    forall k | k in v.live
      ensures MissingFrom(v.live[k]) >= 0
    {
      WellFormedBound(k, v.live[k]);
    }
    TotalBound(v.live, MissingFrom);
  }

  /** What storing such a chunk does, field by field. */
  lemma StoredFacts(v: View, id: int, index: int, b: Bytes, now: int) returns (t: Transfer)
    requires Inv(v) && ChunkRefusal(v, id, index, b).None?
    ensures index < |v.live[id].chunks|
    ensures t == v.live[id].(chunks := v.live[id].chunks[index := Some(b)], lastActivity := now)
    ensures Received(t.chunks) == Received(v.live[id].chunks) + |b| && Filled(t.chunks) == Filled(v.live[id].chunks) + 1
    ensures Total(v.live[id := t], ReceivedBy) == Total(v.live, ReceivedBy) + |b|
    ensures Total(v.live[id := t], MissingFrom) == Total(v.live, MissingFrom) - |b|
    ensures Filled(t.chunks) == t.manifest.chunkCount <==> Complete(t)
    ensures WellFormed(id, t)
    ensures Complete(t) ==> AfterChunk(v, id, index, b, now) == v.(live := v.live[id := t], hashing := Some(Job(id, t.manifest, Contents(t))))
    ensures !Complete(t) ==> AfterChunk(v, id, index, b, now) == v.(live := v.live[id := t])
  {
    t := Stored(v.live[id], index, b, now);
    StoreCounts(v.live[id].chunks, index, b);
    WellFormedBound(id, t);
    TotalUpdate(v.live, id, t, ReceivedBy);
    TotalUpdate(v.live, id, t, MissingFrom);
  }

  /** What admitting a manifest does, field by field. */
  lemma AdmittedFacts(v: View, id: int, m: FileManifest, now: int) returns (t: Transfer)
    requires Canonical(m) && m.transferId == id && ManifestRefusal(v, id, m).None?
    ensures id !in v.live && t == Opened(m, now) && Received(t.chunks) == 0 && Filled(t.chunks) == 0
    ensures Total(v.live[id := t], ReceivedBy) == Total(v.live, ReceivedBy)
    ensures Total(v.live[id := t], MissingFrom) == Total(v.live, MissingFrom) + m.size
    ensures WellFormed(id, t) && (Complete(t) <==> m.chunkCount == 0)
    ensures Complete(t) ==> AfterManifest(v, id, m, now) == v.(live := v.live[id := t], hashing := Some(Job(id, m, Contents(t))))
    ensures !Complete(t) ==> AfterManifest(v, id, m, now) == v.(live := v.live[id := t])
  {
    t := Opened(m, now);
    OpenedFacts(id, m, now);
    EmptyCounts(t.chunks);
    TotalUpdate(v.live, id, t, ReceivedBy);
    TotalUpdate(v.live, id, t, MissingFrom);
  }

  /** Every step, whatever it is and whatever the hash says, keeps the budget, the transfer cap and
      the shape of every transfer. */
  lemma NextKeeps(sha: Bytes -> Bytes, v: View, e: Event)
    requires Inv(v) && Enabled(v, e)
    ensures Inv(Next(sha, v, e))
  {
    match e
    case FrameText(_) =>
    case FrameControl(_, _) =>
    case FrameManifest(id, m, now) => ManifestKeeps(v, id, m, now);
    case FrameChunk(id, i, b, now) => ChunkKeeps(v, id, i, b, now);
    case HashResolved => DropKeeps(v, v.hashing.value.transferId, AfterHash(sha, v));
    case Cancelled(id) => DropKeeps(v, id, Next(sha, v, e));
    case Swept(expired) => SweepKeeps(v, expired);
    case TornDown =>
  }

  // ----- Runs -----

  ghost predicate Trace(sha: Bytes -> Bytes, v: View, es: seq<Event>)
    decreases |es|
  {
    es == [] || (Enabled(v, es[0]) && Trace(sha, Next(sha, v, es[0]), es[1..]))
  }

  ghost function After(sha: Bytes -> Bytes, v: View, es: seq<Event>): View
    requires Trace(sha, v, es)
    decreases |es|
  {
    if es == [] then v else After(sha, Next(sha, v, es[0]), es[1..])
  }

  lemma {:induction false} RunKeeps(sha: Bytes -> Bytes, v: View, es: seq<Event>)
    requires Inv(v) && Trace(sha, v, es)
    ensures Inv(After(sha, v, es))
    decreases |es|
  {
    if es != [] {
      NextKeeps(sha, v, es[0]);
      RunKeeps(sha, Next(sha, v, es[0]), es[1..]);
    }
  }

  const START := View(map[], None, false, [])

  /** `v` is where the run `es` of a new receiver ends. */
  ghost predicate Reaches(sha: Bytes -> Bytes, es: seq<Event>, v: View)
    decreases |es|
  {
    if es == [] then v == START
    else
      var before, last := es[..|es| - 1], es[|es| - 1];
      exists u :: Reaches(sha, before, u) && Enabled(u, last) && v == Next(sha, u, last)
  }

  lemma ReachesNext(sha: Bytes -> Bytes, es: seq<Event>, u: View, e: Event)
    requires Reaches(sha, es, u) && Enabled(u, e)
    ensures Reaches(sha, es + [e], Next(sha, u, e))
  {
    assert (es + [e])[..|es|] == es;
  }

  lemma {:induction false} ReachedIsSound(sha: Bytes -> Bytes, es: seq<Event>, v: View)
    requires Reaches(sha, es, v)
    ensures Inv(v)
    decreases |es|
  {
    if es != [] {
      var last := |es| - 1;
      var u :| Reaches(sha, es[..last], u) && Enabled(u, es[last]) && v == Next(sha, u, es[last]);
      ReachedIsSound(sha, es[..last], u);
      NextKeeps(sha, u, es[last]);
    }
  }

  /** What the receiver relies on when it stores a chunk it did not refuse. */
  lemma AcceptedFacts(sha: Bytes -> Bytes, es: seq<Event>, v: View, id: int, index: int, b: Bytes, now: int) returns (t: Transfer)
    requires Reaches(sha, es, v) && ChunkRefusal(v, id, index, b).None?
    ensures id in v.live && 0 <= index < |v.live[id].chunks|
    ensures Received(v.live[id].chunks) + |b| <= v.live[id].manifest.size
    ensures Total(v.live, ReceivedBy) + |b| <= MAX_INCOMPLETE_TRANSFER_BYTES
    ensures t == v.live[id].(chunks := v.live[id].chunks[index := Some(b)], lastActivity := now)
    ensures Received(t.chunks) == Received(v.live[id].chunks) + |b| && Filled(t.chunks) == Filled(v.live[id].chunks) + 1
    ensures Total(v.live[id := t], ReceivedBy) == Total(v.live, ReceivedBy) + |b|
    ensures Total(v.live[id := t], MissingFrom) == Total(v.live, MissingFrom) - |b|
    ensures Filled(t.chunks) == t.manifest.chunkCount <==> Complete(t)
    ensures WellFormed(id, t)
    ensures Complete(t) ==> AfterChunk(v, id, index, b, now) == v.(live := v.live[id := t], hashing := Some(Job(id, t.manifest, Contents(t))))
    ensures !Complete(t) ==> AfterChunk(v, id, index, b, now) == v.(live := v.live[id := t])
  {
    ReachedIsSound(sha, es, v);
    ChunkFits(v, id, index, b);
    t := StoredFacts(v, id, index, b, now);
  }

  lemma {:induction false} AfterSnoc(sha: Bytes -> Bytes, v: View, es: seq<Event>, e: Event)
    requires Trace(sha, v, es) && Enabled(After(sha, v, es), e)
    ensures Trace(sha, v, es + [e]) && After(sha, v, es + [e]) == Next(sha, After(sha, v, es), e)
    decreases |es|
  {
    if es != [] {
      assert (es + [e])[1..] == es[1..] + [e];
      AfterSnoc(sha, Next(sha, v, es[0]), es[1..], e);
    }
  }

  /** Reaching a state is running the specification to it from the start. */
  lemma {:induction false} ReachedByRun(sha: Bytes -> Bytes, es: seq<Event>, v: View)
    requires Reaches(sha, es, v)
    ensures Trace(sha, START, es) && After(sha, START, es) == v
    decreases |es|
  {
    if es != [] {
      var last := |es| - 1;
      var u :| Reaches(sha, es[..last], u) && Enabled(u, es[last]) && v == Next(sha, u, es[last]);
      ReachedByRun(sha, es[..last], u);
      AfterSnoc(sha, START, es[..last], es[last]);
      assert es == es[..last] + [es[last]];
    }
  }

  predicate Genuine(sha: Bytes -> Bytes, log: seq<HostEvent>)
  {
    forall i :: 0 <= i < |log| && log[i].FileCompleted? ==>
      |log[i].data| == log[i].manifest.size && sha(log[i].data) == log[i].manifest.contentHash
  }

  lemma {:induction false} SweepLog(v: View, expired: seq<int>, id: int)
    ensures |AfterSweep(v, expired).log| >= |v.log| && AfterSweep(v, expired).log[..|v.log|] == v.log
    ensures forall i :: |v.log| <= i < |AfterSweep(v, expired).log| ==> AfterSweep(v, expired).log[i].TimedOut?
    ensures Completions(AfterSweep(v, expired).log, id) == Completions(v.log, id)
    decreases |expired|
  {
    if expired != [] {
      SweepLog(v, expired[..|expired| - 1], id);
    }
  }

  lemma GenuineStep(sha: Bytes -> Bytes, v: View, e: Event)
    requires Inv(v) && Enabled(v, e) && Genuine(sha, v.log)
    ensures Genuine(sha, Next(sha, v, e).log)
  {
    if e.Swept? {
      SweepLog(v, e.expired, 0);
      var log := AfterSweep(v, e.expired).log;
      assert forall i :: 0 <= i < |v.log| ==> log[i] == log[..|v.log|][i] == v.log[i];
    }
  }

  /** Every file ever handed to the host has its declared length and hashes to its declared hash. */
  lemma {:induction false} OnlyGenuineFiles(sha: Bytes -> Bytes, v: View, es: seq<Event>)
    requires Inv(v) && Trace(sha, v, es) && Genuine(sha, v.log)
    ensures Genuine(sha, After(sha, v, es).log)
    decreases |es|
  {
    if es != [] {
      NextKeeps(sha, v, es[0]);
      GenuineStep(sha, v, es[0]);
      OnlyGenuineFiles(sha, Next(sha, v, es[0]), es[1..]);
    }
  }

  /** How often transfer `id` was reported complete. */
  function Completions(log: seq<HostEvent>, id: int): nat
  {
    if log == [] then 0
    else
      Completions(log[..|log| - 1], id)
      + (match log[|log| - 1] case FileCompleted(m, _) => if m.transferId == id then 1 else 0 case _ => 0)
  }

  lemma CompletionsAppend(log: seq<HostEvent>, e: HostEvent, id: int)
    ensures Completions(log + [e], id)
         == Completions(log, id) + if e.FileCompleted? && e.manifest.transferId == id then 1 else 0
  {
    assert (log + [e])[..|log|] == log;
  }

  predicate Opens(e: Event, id: int)
  {
    e.FrameManifest? && e.transferId == id
  }

  lemma OtherStep(sha: Bytes -> Bytes, v: View, e: Event, id: int)
    requires Inv(v) && Enabled(v, e) && id !in v.live && !Opens(e, id)
    ensures id !in Next(sha, v, e).live
    ensures Completions(Next(sha, v, e).log, id) == Completions(v.log, id)
  {
    match e
    case FrameText(b) => CompletionsAppend(v.log, TextReceived(b), id);
    case FrameControl(s, b) => CompletionsAppend(v.log, ControlReceived(s, b), id);
    case FrameManifest(_, _, _) =>
    case FrameChunk(_, _, _, _) =>
    case HashResolved =>
      CompletionsAppend(v.log, FileCompleted(v.hashing.value.manifest, v.hashing.value.data), id);
    case Cancelled(_) =>
    case Swept(expired) =>
      SweepKeeps(v, expired);
      SweepLog(v, expired, id);
    case TornDown =>
  }

  /** A transfer that was dropped, by cancel, sweep or teardown, even while its completion was
      waiting for the hash, is never reported complete unless its id is announced anew. */
  lemma {:induction false} DroppedNeverCompletes(sha: Bytes -> Bytes, v: View, es: seq<Event>, id: int)
    requires Inv(v) && Trace(sha, v, es) && id !in v.live
    requires forall k :: 0 <= k < |es| ==> !Opens(es[k], id)
    ensures id !in After(sha, v, es).live
    ensures Completions(After(sha, v, es).log, id) == Completions(v.log, id)
    decreases |es|
  {
    if es != [] {
      NextKeeps(sha, v, es[0]);
      OtherStep(sha, v, es[0], id);
      DroppedNeverCompletes(sha, Next(sha, v, es[0]), es[1..], id);
    }
  }

  /** The clock of the inactivity sweep. A transfer's last activity is the time of its manifest or of the last
      chunk that filled an empty slot with the right number of bytes; nothing else of the traffic moves it. */
  lemma ActivityNoted(sha: Bytes -> Bytes, v: View, e: Event, id: int)
    requires Inv(v) && Enabled(v, e) && id in Next(sha, v, e).live
    ensures id in v.live || (e.FrameManifest? && e.transferId == id)
    ensures Next(sha, v, e).live[id].lastActivity ==
            if id !in v.live then e.now
            else if e.FrameChunk? && e.transferId == id && 0 <= e.index < v.live[id].manifest.chunkCount
                    && |e.plaintext| == ChunkLength(v.live[id].manifest.size, e.index) && v.live[id].chunks[e.index].None?
            then e.now
            else v.live[id].lastActivity
  {
    if e.Swept? {
      SweepKeeps(v, e.expired);
    }
  }

  // ----- A sender's file -----

  /** The traffic an honest sender of `data` under `id` can cause at the receiver: its own canonical
      chunks in any order and number, no second manifest, no cancel, no inactivity drop and no
      teardown. Everything about other transfers is arbitrary. */
  predicate FromSender(e: Event, id: int, data: Bytes)
  {
    match e
    case FrameText(_) => true
    case FrameControl(_, _) => true
    case FrameManifest(other, _, _) => other != id
    case FrameChunk(other, i, b, _) => other == id ==> 0 <= i < ChunkCount(|data|) && b == Slice(data, i)
    case HashResolved => true
    case Cancelled(other) => other != id
    case Swept(expired) => id !in expired
    case TornDown => false
  }

  function Arrived(es: seq<Event>, id: int): set<int>
  {
    set k | 0 <= k < |es| && es[k].FrameChunk? && es[k].transferId == id :: es[k].index
  }

  /** Where the file stands once the chunks in `have` arrived: still buffered, parked on its hash,
      or reported once with exactly the sender's bytes. */
  ghost predicate Standing(v: View, id: int, m: FileManifest, data: Bytes, have: set<int>, before: nat)
  {
    if id in v.live then
      && v.live[id].manifest == m
      && |v.live[id].chunks| == ChunkCount(|data|)
      && (forall i :: 0 <= i < ChunkCount(|data|) ==> v.live[id].chunks[i] == if i in have then Some(Slice(data, i)) else None)
      && Completions(v.log, id) == before
    else
      && (forall i :: 0 <= i < ChunkCount(|data|) ==> i in have)
      && Completions(v.log, id) == before + 1
      && FileCompleted(m, data) in v.log
      && (v.hashing.Some? ==> v.hashing.value.transferId != id)
  }

  lemma CompleteContents(t: Transfer, data: Bytes)
    requires |t.chunks| == ChunkCount(|data|)
    requires forall i :: 0 <= i < ChunkCount(|data|) ==> t.chunks[i] == Some(Slice(data, i))
    ensures Complete(t) && Contents(t) == data
  {
    ChunkingRoundTrip(data);
    assert Parts(t) == seq(ChunkCount(|data|), i requires 0 <= i < ChunkCount(|data|) => Slice(data, i));
  }

  lemma StandingChunk(v: View, e: Event, id: int, m: FileManifest, data: Bytes, have: set<int>, before: nat)
    requires e.FrameChunk? && FromSender(e, id, data) && v.hashing.None?
    requires m.size == |data| && m.chunkCount == ChunkCount(|data|) && Standing(v, id, m, data, have, before)
    ensures Standing(AfterChunk(v, e.transferId, e.index, e.plaintext, e.now), id, m, data,
                     if e.transferId == id then have + {e.index} else have, before)
  {
    if e.transferId == id && id in v.live {
      ChunksTile(|data|, e.index);
    }
  }

  /** The hash that resolves is that of the file itself. */
  lemma OwnHash(sha: Bytes -> Bytes, v: View, id: int, m: FileManifest, data: Bytes, have: set<int>, before: nat)
    requires Inv(v) && v.hashing.Some? && v.hashing.value.transferId == id && id in v.live
    requires m.transferId == id && m.contentHash == sha(data) && Standing(v, id, m, data, have, before)
    ensures Standing(AfterHash(sha, v), id, m, data, have, before)
  {
    var w := AfterHash(sha, v);
    CompleteContents(v.live[id], data);
    CompletionsAppend(v.log, FileCompleted(m, data), id);
    assert w.log[|v.log|] == FileCompleted(m, data);
  }

  /** It is that of another transfer, or of one that is gone. */
  lemma OtherHash(sha: Bytes -> Bytes, v: View, id: int, m: FileManifest, data: Bytes, have: set<int>, before: nat)
    requires Inv(v) && v.hashing.Some? && v.hashing.value.transferId != id
    requires Standing(v, id, m, data, have, before)
    ensures Standing(AfterHash(sha, v), id, m, data, have, before)
  {
    var job := v.hashing.value;
    CompletionsAppend(v.log, FileCompleted(job.manifest, job.data), id);
    if id !in v.live {
      assert FileCompleted(m, data) in v.log + [FileCompleted(job.manifest, job.data)];
    }
  }

  lemma StandingHash(sha: Bytes -> Bytes, v: View, id: int, m: FileManifest, data: Bytes, have: set<int>, before: nat)
    requires Inv(v) && v.hashing.Some? && !v.tornDown
    requires m.transferId == id && m.contentHash == sha(data) && Standing(v, id, m, data, have, before)
    ensures Standing(AfterHash(sha, v), id, m, data, have, before)
  {
    if v.hashing.value.transferId == id {
      OwnHash(sha, v, id, m, data, have, before);
    } else {
      OtherHash(sha, v, id, m, data, have, before);
    }
  }

  lemma StandingSweep(v: View, expired: seq<int>, id: int, m: FileManifest, data: Bytes, have: set<int>, before: nat)
    requires Inv(v) && id !in expired && Standing(v, id, m, data, have, before)
    ensures Standing(AfterSweep(v, expired), id, m, data, have, before)
  {
    SweepKeeps(v, expired);
    SweepLog(v, expired, id);
    if id !in v.live {
      var at :| 0 <= at < |v.log| && v.log[at] == FileCompleted(m, data);
      assert AfterSweep(v, expired).log[..|v.log|][at] == AfterSweep(v, expired).log[at];
    }
  }

  lemma StandingStep(sha: Bytes -> Bytes, v: View, e: Event, id: int, m: FileManifest, data: Bytes, have: set<int>, before: nat)
    requires Inv(v) && !v.tornDown && Enabled(v, e) && FromSender(e, id, data)
    requires Canonical(m) && m.transferId == id && m.size == |data| && m.contentHash == sha(data)
    requires Standing(v, id, m, data, have, before)
    ensures Standing(Next(sha, v, e), id, m, data, have + Arrived([e], id), before)
    ensures !Next(sha, v, e).tornDown
  {
    ArrivedOne(e, id);
    match e
    case FrameText(b) => CompletionsAppend(v.log, TextReceived(b), id);
    case FrameControl(s, b) => CompletionsAppend(v.log, ControlReceived(s, b), id);
    case FrameManifest(_, _, _) =>
    case FrameChunk(_, _, _, _) => StandingChunk(v, e, id, m, data, have, before);
    case HashResolved => StandingHash(sha, v, id, m, data, have, before);
    case Cancelled(_) =>
    case Swept(expired) =>
      SweepKeeps(v, expired);
      StandingSweep(v, expired, id, m, data, have, before);
    case TornDown =>
  }

  lemma ArrivedOne(e: Event, id: int)
    ensures Arrived([e], id) == if e.FrameChunk? && e.transferId == id then {e.index} else {}
  {
    if e.FrameChunk? && e.transferId == id {
      assert [e][0].index in Arrived([e], id);
    }
  }

  lemma {:induction false} StandingRun(sha: Bytes -> Bytes, v: View, es: seq<Event>, id: int, m: FileManifest, data: Bytes, have: set<int>, before: nat)
    requires Inv(v) && !v.tornDown && Trace(sha, v, es)
    requires forall k :: 0 <= k < |es| ==> FromSender(es[k], id, data)
    requires Canonical(m) && m.transferId == id && m.size == |data| && m.contentHash == sha(data)
    requires Standing(v, id, m, data, have, before)
    ensures Standing(After(sha, v, es), id, m, data, have + Arrived(es, id), before)
    decreases |es|
  {
    if es == [] {
      assert have + Arrived(es, id) == have;
    } else {
      NextKeeps(sha, v, es[0]);
      StandingStep(sha, v, es[0], id, m, data, have, before);
      StandingRun(sha, Next(sha, v, es[0]), es[1..], id, m, data, have + Arrived([es[0]], id), before);
      ArrivedSplit(es, id);
      assert have + Arrived([es[0]], id) + Arrived(es[1..], id) == have + Arrived(es, id);
    }
  }

  lemma ArrivedSplit(es: seq<Event>, id: int)
    requires es != []
    ensures Arrived(es, id) == Arrived([es[0]], id) + Arrived(es[1..], id)
  {
    forall i | i in Arrived(es, id)
      ensures i in Arrived([es[0]], id) + Arrived(es[1..], id)
    {
      var k :| 0 <= k < |es| && es[k].FrameChunk? && es[k].transferId == id && es[k].index == i;
      if k == 0 {
        assert [es[0]][0].index == i;
      } else {
        assert es[1..][k - 1] == es[k];
      }
    }
    forall i | i in Arrived([es[0]], id) + Arrived(es[1..], id)
      ensures i in Arrived(es, id)
    {
      if i in Arrived(es[1..], id) {
        var k :| 0 <= k < |es[1..]| && es[1..][k].FrameChunk? && es[1..][k].transferId == id && es[1..][k].index == i;
        assert es[k + 1] == es[1..][k];
      } else {
        assert es[0].index == i;
      }
    }
  }

  /** The id is free, fewer than four transfers are live, and the budget has room for the declared size. */
  ghost predicate Room(v: View, m: FileManifest)
  {
    m.transferId !in v.live && |v.live| < 4 && Total(v.live, Declared) + m.size <= MAX_INCOMPLETE_TRANSFER_BYTES
  }

  /** End to end: once the receiver admitted the manifest of `data`, then after any traffic, with
      the sender's chunks in any order, repeated, and interleaved with anything about other
      transfers, the file is reported at most once; when it is reported it is exactly `data`; and
      when all chunks arrived and no completion waits for its hash, it has been reported. */
  lemma EndToEnd(sha: Bytes -> Bytes, v: View, es: seq<Event>, m: FileManifest, data: Bytes, now: int)
    requires Inv(v) && v.hashing.None? && !v.tornDown
    requires Canonical(m) && m.size == |data| && m.contentHash == sha(data)
    requires Room(v, m)
    requires Trace(sha, AfterManifest(v, m.transferId, m, now), es)
    requires forall k :: 0 <= k < |es| ==> FromSender(es[k], m.transferId, data)
    ensures var w := After(sha, AfterManifest(v, m.transferId, m, now), es);
            var all := forall i :: 0 <= i < ChunkCount(|data|) ==> i in Arrived(es, m.transferId);
            && Completions(w.log, m.transferId) <= Completions(v.log, m.transferId) + 1
            && (Completions(w.log, m.transferId) > Completions(v.log, m.transferId) ==> all && FileCompleted(m, data) in w.log)
            && (all && w.hashing.None? ==> Completions(w.log, m.transferId) == Completions(v.log, m.transferId) + 1)
  {
    var id := m.transferId;
    var start := AfterManifest(v, id, m, now);
    ManifestKeeps(v, id, m, now);
    StandingStart(v, m, data, now);
    StandingRun(sha, start, es, id, m, data, {}, Completions(v.log, id));
    assert {} + Arrived(es, id) == Arrived(es, id);
    RunKeeps(sha, start, es);
    StandingEnds(After(sha, start, es), m, data, Arrived(es, id), Completions(v.log, id));
  }

  /** The manifest was just admitted: nothing arrived yet. */
  lemma StandingStart(v: View, m: FileManifest, data: Bytes, now: int)
    requires Inv(v) && v.hashing.None? && !v.tornDown && Canonical(m) && m.size == |data|
    requires Room(v, m)
    ensures Standing(AfterManifest(v, m.transferId, m, now), m.transferId, m, data, {}, Completions(v.log, m.transferId))
  {
    ManifestKeeps(v, m.transferId, m, now);
  }

  /** What a standing transfer means for the host. */
  lemma StandingEnds(w: View, m: FileManifest, data: Bytes, have: set<int>, before: nat)
    requires Inv(w) && Standing(w, m.transferId, m, data, have, before) && m.size == |data|
    ensures var all := forall i :: 0 <= i < ChunkCount(|data|) ==> i in have;
            && Completions(w.log, m.transferId) <= before + 1
            && (Completions(w.log, m.transferId) > before ==> all && FileCompleted(m, data) in w.log)
            && (all && w.hashing.None? ==> Completions(w.log, m.transferId) == before + 1)
  {
    if m.transferId in w.live && forall i :: 0 <= i < ChunkCount(|data|) ==> i in have {
      CompleteContents(w.live[m.transferId], data);
    }
  }
}
