/** The frame sender as a step machine on values (`framing/sender.ts`): which frames get a sequence
    number, in which order, whatever way text, control, file and cancel calls interleave. The class
    that carries out these steps is in Sender.dfy. */
module SenderSpec {
  import opened Bytes
  import opened Manifest
  import Codec

  const MAX_SEQUENCE: int := 0xffff_ffff
  const FIRST_TRANSFER_ID: int := 1000000
  const MAX_CONCURRENT_TRANSFERS: int := 4

  type Hash = Bytes -> Bytes

  datatype File = File(data: Bytes, name: Bytes, mimeType: Bytes)

  /** What a sequenced frame carries. `CancelFrame` is the TransferCancel control frame that a cancel
      emits by itself. */
  datatype Frame =
    | TextFrame(plaintext: Bytes)
    | ControlFrame(subtype: int, payload: Bytes)
    | CancelFrame(cancelled: int)
    | ManifestFrame(transferId: int, manifest: FileManifest)
    | ChunkFrame(transferId: int, index: nat, plaintext: Bytes)

  /** Where a `sendFile` call is suspended: hashing; waiting for the frame before chunk `next` to be
      encrypted; parked until the transport drains; woken from there but not yet running; or unwinding
      after the sequence space ran out. */
  datatype Stage =
    | Hashing
    | Encrypting(next: nat)
    | Parked(next: nat)
    | Woken(next: nat, ok: bool)
    | Unwinding

  datatype Task = Task(transferId: int, file: File, stage: Stage)

  datatype Waiter = Waiter(task: int, transferId: int)

  /** The sender's fields, the calls in flight, and the log of frames in the order in which they
      were given sequence numbers. The last four fields are history: which transfers were ever driven
      by a `sendFile` call, which by more than one, the length of the log when a transfer was
      cancelled, and which transfers were reported sent. */
  datatype Sender = Sender(
    sequence: int,
    nextTransferId: int,
    active: set<int>,
    cancelled: set<int>,
    manifestSent: set<int>,
    waiters: seq<Waiter>,
    tearingDown: bool,
    tasks: map<int, Task>,
    log: seq<Frame>,
    driven: set<int>,
    twice: set<int>,
    cut: map<int, nat>,
    finished: map<int, File>)

  const IDLE: Sender := Sender(0, FIRST_TRANSFER_ID, {}, {}, {}, [], false, map[], [], {}, {}, map[], map[])

  // ----- Steps -----

  predicate Exhausted(s: Sender) { s.sequence > MAX_SEQUENCE }

  /** `nextSequence`: the frame takes the next number. */
  function Push(s: Sender, f: Frame): Sender
  {
    s.(sequence := s.sequence + 1, log := s.log + [f])
  }

  function Send(s: Sender, f: Frame): Sender
  {
    if s.tearingDown || Exhausted(s) then s else Push(s, f)
  }

  predicate Stopped(s: Sender, id: int) { s.tearingDown || id in s.cancelled }

  function At(s: Sender, h: int, stage: Stage): Sender
    requires h in s.tasks
  {
    s.(tasks := s.tasks[h := s.tasks[h].(stage := stage)])
  }

  /** The `finally` of `sendFile`. */
  function Finish(s: Sender, h: int): Sender
    requires h in s.tasks
  {
    var id := s.tasks[h].transferId;
    s.(tasks := s.tasks - {h}, active := s.active - {id}, cancelled := s.cancelled - {id},
       manifestSent := s.manifestSent - {id})
  }

  function ManifestOf(sha: Hash, id: int, file: File): FileManifest
  {
    FileManifest(id, file.name, file.mimeType, |file.data|, ChunkCount(|file.data|), sha(file.data))
  }

  function Begin(s: Sender): Sender
  {
    if s.tearingDown || |s.active| >= MAX_CONCURRENT_TRANSFERS || s.nextTransferId > UINT32_MAX then s
    else s.(active := s.active + {s.nextTransferId}, nextTransferId := s.nextTransferId + 1)
  }

  function Drive(s: Sender, h: int, id: int, file: File): Sender
  {
    if id !in s.active then s
    else if |file.data| > MAX_INCOMPLETE_TRANSFER_BYTES then Finish(Started(s, h, id, file), h)
    else Started(s, h, id, file)
  }

  function Started(s: Sender, h: int, id: int, file: File): Sender
  {
    s.(tasks := s.tasks[h := Task(id, file, Hashing)], driven := s.driven + {id},
       twice := if id in s.driven then s.twice + {id} else s.twice)
  }

  function Hashed(sha: Hash, s: Sender, h: int, ok: bool): Sender
    requires h in s.tasks
  {
    var t := s.tasks[h];
    var m := ManifestOf(sha, t.transferId, t.file);
    if !ok || Stopped(s, t.transferId) || ManifestFault(m).Some? then Finish(s, h)
    else
      var marked := s.(manifestSent := s.manifestSent + {t.transferId});
      if Exhausted(s) then At(marked, h, Unwinding)
      else Push(At(marked, h, Encrypting(0)), ManifestFrame(t.transferId, m))
  }

  /** Chunk `next` is due and the transport has room, or not. */
  function ChunkStep(s: Sender, h: int, next: nat, full: bool): Sender
    requires h in s.tasks && next < ChunkCount(|s.tasks[h].file.data|)
  {
    var t := s.tasks[h];
    if Stopped(s, t.transferId) then Finish(s, h)
    else if full then At(s, h, Parked(next)).(waiters := s.waiters + [Waiter(h, t.transferId)])
    else if Exhausted(s) then At(s, h, Unwinding)
    else Push(At(s, h, Encrypting(next + 1)), ChunkFrame(t.transferId, next, Slice(t.file.data, next)))
  }

  /** The head of the chunk loop. */
  function LoopHead(s: Sender, h: int, next: nat, full: bool): Sender
    requires h in s.tasks && next <= ChunkCount(|s.tasks[h].file.data|)
  {
    var t := s.tasks[h];
    if next == ChunkCount(|t.file.data|) then Finish(s, h).(finished := s.finished[t.transferId := t.file])
    else ChunkStep(s, h, next, full)
  }

  function Wake(tasks: map<int, Task>, w: Waiter, ok: bool): map<int, Task>
  {
    if w.task in tasks && tasks[w.task].stage.Parked?
    then tasks[w.task := tasks[w.task].(stage := Woken(tasks[w.task].stage.next, ok))]
    else tasks
  }

  /** Every waiter is settled: `ok` unless its transfer is in `bad`. */
  function WakeAll(tasks: map<int, Task>, ws: seq<Waiter>, all: bool, bad: set<int>): map<int, Task>
  {
    if ws == [] then tasks
    else
      var w := ws[|ws| - 1];
      Wake(WakeAll(tasks, ws[..|ws| - 1], all, bad), w, all && w.transferId !in bad)
  }

  /** `rejectWaiters`, from the back of the list. */
  function Reject(tasks: map<int, Task>, ws: seq<Waiter>, id: int): map<int, Task>
  {
    if ws == [] then tasks
    else
      var rest := Reject(tasks, ws[1..], id);
      if ws[0].transferId == id then Wake(rest, ws[0], false) else rest
  }

  function Others(ws: seq<Waiter>, id: int): seq<Waiter>
  {
    if ws == [] then []
    else if ws[0].transferId == id then Others(ws[1..], id)
    else [ws[0]] + Others(ws[1..], id)
  }

  function Cancel(s: Sender, id: int): Sender
  {
    if id !in s.active then s
    else if id in s.manifestSent then Send(Cut(s, id), CancelFrame(id))
    else Cut(s, id)
  }

  function Cut(s: Sender, id: int): Sender
  {
    s.(cancelled := s.cancelled + {id}, active := s.active - {id},
       tasks := Reject(s.tasks, s.waiters, id), waiters := Others(s.waiters, id),
       cut := s.cut[id := |s.log|])
  }

  function Drain(s: Sender): Sender
  {
    s.(tasks := WakeAll(s.tasks, s.waiters, !s.tearingDown, s.cancelled), waiters := [])
  }

  function Teardown(s: Sender): Sender
  {
    s.(tearingDown := true, tasks := WakeAll(s.tasks, s.waiters, false, {}), waiters := [],
       active := {}, manifestSent := {})
  }

  datatype Event =
    | SendsText(plaintext: Bytes)
    | SendsControl(subtype: int, payload: Bytes)
    | Begins
    | Drives(task: int, transferId: int, file: File)
    | HashDone(task: int, ok: bool)
    | EncryptDone(task: int, ok: bool, full: bool)
    | Resumes(task: int, full: bool)
    | Unwinds(task: int)
    | Cancels(transferId: int)
    | Drains
    | TearsDown

  predicate Enabled(s: Sender, e: Event)
  {
    match e
    case Drives(h, _, _) => h !in s.tasks
    case HashDone(h, _) => h in s.tasks && s.tasks[h].stage.Hashing?
    case EncryptDone(h, _, _) =>
      h in s.tasks && s.tasks[h].stage.Encrypting? && s.tasks[h].stage.next <= ChunkCount(|s.tasks[h].file.data|)
    case Resumes(h, _) =>
      h in s.tasks && s.tasks[h].stage.Woken? && s.tasks[h].stage.next < ChunkCount(|s.tasks[h].file.data|)
    case Unwinds(h) => h in s.tasks && s.tasks[h].stage.Unwinding?
    case _ => true
  }

  function Next(sha: Hash, s: Sender, e: Event): Sender
    requires Enabled(s, e)
  {
    match e
    case SendsText(b) => Send(s, TextFrame(b))
    case SendsControl(subtype, b) => Send(s, ControlFrame(subtype, b))
    case Begins => Begin(s)
    case Drives(h, id, file) => Drive(s, h, id, file)
    case HashDone(h, ok) => Hashed(sha, s, h, ok)
    case EncryptDone(h, ok, full) => if ok then LoopHead(s, h, s.tasks[h].stage.next, full) else Finish(s, h)
    case Resumes(h, full) =>
      if s.tasks[h].stage.ok then ChunkStep(s, h, s.tasks[h].stage.next, full) else Finish(s, h)
    case Unwinds(h) => Finish(s, h)
    case Cancels(id) => Cancel(s, id)
    case Drains => Drain(s)
    case TearsDown => Teardown(s)
  }
}

/** What every run of the sender keeps. */
module SenderRuns {
  import opened Bytes
  import opened Manifest
  import opened SenderSpec
  import Codec

  // ----- Counters and reservations -----

  predicate Issued(s: Sender, id: int) { FIRST_TRANSFER_ID <= id < s.nextTransferId }

  predicate Counts(s: Sender)
  {
    |s.log| == s.sequence <= MAX_SEQUENCE + 1
    && FIRST_TRANSFER_ID <= s.nextTransferId <= UINT32_MAX + 1
    && |s.active| <= MAX_CONCURRENT_TRANSFERS
  }

  /** Transfer ids in use were issued; a cancelled or driven-to-the-end transfer is not active. */
  ghost predicate Ids(s: Sender)
  {
    (forall id :: id in s.active ==> Issued(s, id) && id !in s.cut && id !in s.cancelled && id !in s.finished)
    && (forall id :: id in s.driven ==> Issued(s, id))
    && (forall id :: id in s.cut ==> Issued(s, id) && s.cut[id] <= |s.log|)
    && (forall id :: id in s.cancelled ==> id in s.cut)
    && (forall h :: h in s.tasks ==> s.tasks[h].transferId in s.driven)
    && (forall id :: id in s.finished ==> id in s.driven)
    && (s.tearingDown ==> s.active == {} && s.manifestSent == {})
  }

  /** One call drives a transfer, unless the transfer was driven twice. */
  ghost predicate Alone(s: Sender)
  {
    forall h, k :: h in s.tasks && k in s.tasks && h != k && s.tasks[h].transferId == s.tasks[k].transferId ==>
      s.tasks[h].transferId in s.twice
  }

  // ----- Parking -----

  predicate IsParked(s: Sender, w: Waiter)
  {
    w.task in s.tasks && s.tasks[w.task].stage.Parked? && s.tasks[w.task].transferId == w.transferId
  }

  /** The waiters are the parked calls, each once; none belongs to a cancelled transfer, and a sender
      that was torn down has none. */
  ghost predicate Parking(s: Sender)
  {
    (forall i :: 0 <= i < |s.waiters| ==> IsParked(s, s.waiters[i]) && s.waiters[i].transferId !in s.cancelled)
    && (forall i, j :: 0 <= i < j < |s.waiters| ==> s.waiters[i].task != s.waiters[j].task)
    && (forall h :: h in s.tasks && s.tasks[h].stage.Parked? ==> Waiter(h, s.tasks[h].transferId) in s.waiters)
    && (s.tearingDown ==> s.waiters == [])
  }

  // ----- Cancelling -----

  predicate Of(f: Frame, id: int)
  {
    (f.ManifestFrame? || f.ChunkFrame?) && f.transferId == id
  }

  ghost predicate Announced(log: seq<Frame>, id: int, before: nat)
  {
    exists j :: 0 <= j < before && j < |log| && log[j].ManifestFrame? && log[j].transferId == id
  }

  /** A cancelled transfer that only one call drove: its call will see the cancel, and none of its
      frames was sequenced since. */
  ghost predicate Silenced(s: Sender, id: int)
    requires id in s.cut
  {
    (forall h :: h in s.tasks && s.tasks[h].transferId == id ==> id in s.cancelled)
    && (forall k :: s.cut[id] <= k < |s.log| ==> !Of(s.log[k], id))
  }

  ghost predicate Cancelling(s: Sender)
  {
    (forall id :: id in s.cut && id !in s.twice ==> Silenced(s, id))
    && (forall id :: id in s.manifestSent ==> Announced(s.log, id, |s.log|) || Exhausted(s))
    && (forall k :: 0 <= k < |s.log| && s.log[k].CancelFrame? ==>
          s.log[k].cancelled in s.cut && k >= s.cut[s.log[k].cancelled] && Announced(s.log, s.log[k].cancelled, k))
  }

  // ----- What is sent for a transfer -----

  /** The frames of one transfer, in sequence order. */
  function FramesOf(log: seq<Frame>, id: int): seq<Frame>
  {
    if log == [] then []
    else FramesOf(log[..|log| - 1], id) + if Of(log[|log| - 1], id) then [log[|log| - 1]] else []
  }

  /** The manifest of a file and its first `n` chunks. */
  function Script(sha: Hash, id: int, file: File, n: nat): seq<Frame>
    requires n <= ChunkCount(|file.data|)
  {
    [ManifestFrame(id, ManifestOf(sha, id, file))]
    + seq(n, i requires 0 <= i < n => ChunkFrame(id, i, Slice(file.data, i)))
  }

  /** What the log holds of the transfer a call drives. */
  ghost predicate Sent(sha: Hash, log: seq<Frame>, t: Task)
  {
    var count := ChunkCount(|t.file.data|);
    match t.stage
    case Hashing => FramesOf(log, t.transferId) == []
    case Encrypting(n) => n <= count && FramesOf(log, t.transferId) == Script(sha, t.transferId, t.file, n)
    case Parked(n) => n < count && FramesOf(log, t.transferId) == Script(sha, t.transferId, t.file, n)
    case Woken(n, _) => n < count && FramesOf(log, t.transferId) == Script(sha, t.transferId, t.file, n)
    case Unwinding => true
  }

  /** Chunk positions are in range whoever drives. */
  predicate InRange(t: Task)
  {
    match t.stage
    case Encrypting(n) => n <= ChunkCount(|t.file.data|)
    case Parked(n) => n < ChunkCount(|t.file.data|)
    case Woken(n, _) => n < ChunkCount(|t.file.data|)
    case _ => true
  }

  ghost predicate Scripted(sha: Hash, s: Sender)
  {
    (forall h :: h in s.tasks ==> InRange(s.tasks[h]))
    && (forall h :: h in s.tasks && s.tasks[h].transferId !in s.twice ==> Sent(sha, s.log, s.tasks[h]))
    && (forall id :: id !in s.driven ==> FramesOf(s.log, id) == [])
    && (forall id :: id in s.finished && id !in s.twice ==>
          FramesOf(s.log, id) == Script(sha, id, s.finished[id], ChunkCount(|s.finished[id].data|)))
    && (forall h :: h in s.tasks && s.tasks[h].transferId in s.finished ==> s.tasks[h].transferId in s.twice)
  }

  ghost predicate Inv(sha: Hash, s: Sender)
  {
    Counts(s) && Ids(s) && Alone(s) && Parking(s) && Cancelling(s) && Scripted(sha, s)
  }

  // ----- Every step keeps it -----

  lemma FramesAppend(log: seq<Frame>, f: Frame, id: int)
    ensures FramesOf(log + [f], id) == FramesOf(log, id) + if Of(f, id) then [f] else []
  {
    assert (log + [f])[..|log|] == log;
  }

  lemma AnnouncedStays(log: seq<Frame>, f: Frame)
    ensures forall id, n: nat :: n <= |log| && Announced(log, id, n) ==> Announced(log + [f], id, n)
    ensures forall id :: Announced(log, id, |log|) ==> Announced(log + [f], id, |log| + 1)
  {
    forall id, n: nat | n <= |log| && Announced(log, id, n)
      ensures Announced(log + [f], id, n)
    {
      var j :| 0 <= j < n && j < |log| && log[j].ManifestFrame? && log[j].transferId == id;
      assert (log + [f])[j] == log[j];
    }
    forall id | Announced(log, id, |log|) ensures Announced(log + [f], id, |log| + 1) {
      var j :| 0 <= j < |log| && log[j].ManifestFrame? && log[j].transferId == id;
      assert (log + [f])[j] == log[j];
    }
  }

  /** A frame that belongs to no transfer. */
  lemma SendKeeps(sha: Hash, s: Sender, f: Frame)
    requires Inv(sha, s) && !f.ManifestFrame? && !f.ChunkFrame?
    requires f.CancelFrame? ==> f.cancelled in s.cut && Announced(s.log, f.cancelled, |s.log|)
    ensures Inv(sha, Send(s, f))
  {
    SendScripted(sha, s, f);
    if !s.tearingDown && !Exhausted(s) {
      PushCancelling(s, f);
    }
  }

  lemma SendScripted(sha: Hash, s: Sender, f: Frame)
    requires Scripted(sha, s) && !f.ManifestFrame? && !f.ChunkFrame?
    ensures Scripted(sha, Send(s, f))
  {
    forall id ensures FramesOf(s.log + [f], id) == FramesOf(s.log, id) {
      FramesAppend(s.log, f, id);
    }
  }

  /** No frame of a silenced transfer, and no cancel frame for a transfer never announced, may follow. */
  lemma PushCancelling(s: Sender, f: Frame)
    requires Cancelling(s) && (forall id :: id in s.cut ==> s.cut[id] <= |s.log|)
    requires f.CancelFrame? ==> f.cancelled in s.cut && Announced(s.log, f.cancelled, |s.log|)
    requires forall id :: id in s.cut && id !in s.twice ==> !Of(f, id)
    requires !Exhausted(s)
    ensures Cancelling(Push(s, f))
  {
    var t := Push(s, f);
    AnnouncedStays(s.log, f);
    forall id | id in t.cut && id !in t.twice ensures Silenced(t, id) {
      assert Silenced(s, id);
    }
  }

  lemma FinishKeeps(sha: Hash, s: Sender, h: int)
    requires Inv(sha, s) && h in s.tasks && !s.tasks[h].stage.Parked?
    ensures Inv(sha, Finish(s, h))
  {
    var id := s.tasks[h].transferId;
    var t := Finish(s, h);
    forall i | i in t.cut && i !in t.twice ensures Silenced(t, i) {
      assert Silenced(s, i);
    }
  }

  lemma BeginKeeps(sha: Hash, s: Sender)
    requires Inv(sha, s)
    ensures Inv(sha, SenderSpec.Begin(s))
  {
    forall i | i in s.cut && i !in s.twice ensures Silenced(SenderSpec.Begin(s), i) {
      assert Silenced(s, i);
    }
  }

  lemma StartedKeeps(sha: Hash, s: Sender, h: int, id: int, file: File)
    requires Inv(sha, s) && h !in s.tasks && id in s.active
    ensures Inv(sha, Started(s, h, id, file))
  {
    var t := Started(s, h, id, file);
    forall i | i in t.cut && i !in t.twice ensures Silenced(t, i) {
      assert Silenced(s, i);
    }
    forall i | i !in t.driven ensures FramesOf(t.log, i) == [] {}
  }

  /** Moving one call on to another stage, when the log agrees with where it is. */
  lemma AtKeeps(sha: Hash, s: Sender, h: int, stage: Stage)
    requires Inv(sha, s) && h in s.tasks && !s.tasks[h].stage.Parked? && !stage.Parked?
    requires InRange(s.tasks[h].(stage := stage))
    requires s.tasks[h].transferId !in s.twice ==> Sent(sha, s.log, s.tasks[h].(stage := stage))
    ensures Inv(sha, At(s, h, stage))
  {
    var t := At(s, h, stage);
    forall i | i in t.cut && i !in t.twice ensures Silenced(t, i) {
      assert Silenced(s, i);
    }
  }

  lemma MarkKeeps(sha: Hash, s: Sender, id: int)
    requires Inv(sha, s) && !s.tearingDown && (Announced(s.log, id, |s.log|) || Exhausted(s))
    ensures Inv(sha, s.(manifestSent := s.manifestSent + {id}))
  {
    var t := s.(manifestSent := s.manifestSent + {id});
    forall i | i in t.cut && i !in t.twice ensures Silenced(t, i) {
      assert Silenced(s, i);
    }
  }

  /** A call sequences the next frame of its own transfer. */
  lemma PushOwnKeeps(sha: Hash, s: Sender, h: int, stage: Stage, f: Frame)
    requires Inv(sha, s) && h in s.tasks && !s.tasks[h].stage.Parked? && !stage.Parked?
    requires Of(f, s.tasks[h].transferId) && !Stopped(s, s.tasks[h].transferId) && !Exhausted(s)
    requires InRange(s.tasks[h].(stage := stage))
    requires s.tasks[h].transferId !in s.twice ==> Sent(sha, s.log + [f], s.tasks[h].(stage := stage))
    ensures Inv(sha, Push(At(s, h, stage), f))
  {
    var id := s.tasks[h].transferId;
    assert id in s.cut && id !in s.twice ==> Silenced(s, id);
    PushCancelling(s, f);
    OwnCancelling(s, h, stage, f);
    forall i | i != id ensures FramesOf(s.log + [f], i) == FramesOf(s.log, i) {
      FramesAppend(s.log, f, i);
    }
    OwnScripted(sha, s, h, stage, f);
  }

  lemma OwnCancelling(s: Sender, h: int, stage: Stage, f: Frame)
    requires h in s.tasks && Cancelling(Push(s, f))
    ensures Cancelling(Push(At(s, h, stage), f))
  {
    var t, u := Push(s, f), Push(At(s, h, stage), f);
    forall i | i in u.cut && i !in u.twice ensures Silenced(u, i) {
      assert Silenced(t, i);
    }
  }

  lemma OwnScripted(sha: Hash, s: Sender, h: int, stage: Stage, f: Frame)
    requires Alone(s) && Ids(s) && Scripted(sha, s) && h in s.tasks
    requires forall i :: i != s.tasks[h].transferId ==> FramesOf(s.log + [f], i) == FramesOf(s.log, i)
    requires InRange(s.tasks[h].(stage := stage))
    requires s.tasks[h].transferId !in s.twice ==> Sent(sha, s.log + [f], s.tasks[h].(stage := stage))
    ensures Scripted(sha, Push(At(s, h, stage), f))
  {
    var u := Push(At(s, h, stage), f);
    forall k | k in u.tasks && u.tasks[k].transferId !in u.twice ensures Sent(sha, u.log, u.tasks[k]) {
      if k != h {
        assert u.tasks[k].transferId != s.tasks[h].transferId;
      }
    }
  }

  lemma HashedKeeps(sha: Hash, s: Sender, h: int, ok: bool)
    requires Inv(sha, s) && h in s.tasks && s.tasks[h].stage.Hashing?
    ensures Inv(sha, Hashed(sha, s, h, ok))
  {
    var t := s.tasks[h];
    var id := t.transferId;
    var m := ManifestOf(sha, id, t.file);
    if !ok || Stopped(s, id) || ManifestFault(m).Some? {
      FinishKeeps(sha, s, h);
    } else if Exhausted(s) {
      MarkKeeps(sha, s, id);
      AtKeeps(sha, s.(manifestSent := s.manifestSent + {id}), h, Unwinding);
    } else {
      var f := ManifestFrame(id, m);
      FramesAppend(s.log, f, id);
      assert [] + [f] == Script(sha, id, t.file, 0);
      PushOwnKeeps(sha, s, h, Encrypting(0), f);
      var u := Push(At(s, h, Encrypting(0)), f);
      assert u.log[|s.log|] == f;
      assert Announced(u.log, id, |u.log|);
      MarkKeeps(sha, u, id);
    }
  }

  lemma ParkKeeps(sha: Hash, s: Sender, h: int, next: nat)
    requires Inv(sha, s) && h in s.tasks && !s.tasks[h].stage.Parked?
    requires !Stopped(s, s.tasks[h].transferId) && next < ChunkCount(|s.tasks[h].file.data|)
    requires s.tasks[h].transferId !in s.twice ==> Sent(sha, s.log, s.tasks[h].(stage := Parked(next)))
    ensures Inv(sha, At(s, h, Parked(next)).(waiters := s.waiters + [Waiter(h, s.tasks[h].transferId)]))
  {
    var t := At(s, h, Parked(next)).(waiters := s.waiters + [Waiter(h, s.tasks[h].transferId)]);
    forall i | i in t.cut && i !in t.twice ensures Silenced(t, i) {
      assert Silenced(s, i);
    }
    ParkParking(s, h, next);
  }

  lemma ParkParking(s: Sender, h: int, next: nat)
    requires Parking(s) && h in s.tasks && !s.tasks[h].stage.Parked? && !Stopped(s, s.tasks[h].transferId)
    ensures Parking(At(s, h, Parked(next)).(waiters := s.waiters + [Waiter(h, s.tasks[h].transferId)]))
  {
    var w := Waiter(h, s.tasks[h].transferId);
    forall i | 0 <= i < |s.waiters| ensures s.waiters[i].task != h {
      assert IsParked(s, s.waiters[i]);
    }
    assert (s.waiters + [w])[|s.waiters|] == w;
    forall k | k in s.tasks && s.tasks[k].stage.Parked? ensures Waiter(k, s.tasks[k].transferId) in s.waiters + [w] {
      assert Waiter(k, s.tasks[k].transferId) in s.waiters;
    }
  }

  lemma ChunkStepKeeps(sha: Hash, s: Sender, h: int, next: nat, full: bool)
    requires Inv(sha, s) && h in s.tasks && !s.tasks[h].stage.Parked? && next < ChunkCount(|s.tasks[h].file.data|)
    requires var t := s.tasks[h];
             t.transferId !in s.twice ==> FramesOf(s.log, t.transferId) == Script(sha, t.transferId, t.file, next)
    ensures Inv(sha, ChunkStep(s, h, next, full))
  {
    var t := s.tasks[h];
    if Stopped(s, t.transferId) {
      FinishKeeps(sha, s, h);
    } else if full {
      ParkKeeps(sha, s, h, next);
    } else if Exhausted(s) {
      AtKeeps(sha, s, h, Unwinding);
    } else {
      var f := ChunkFrame(t.transferId, next, Slice(t.file.data, next));
      FramesAppend(s.log, f, t.transferId);
      assert Script(sha, t.transferId, t.file, next) + [f] == Script(sha, t.transferId, t.file, next + 1);
      PushOwnKeeps(sha, s, h, Encrypting(next + 1), f);
    }
  }

  lemma LoopHeadKeeps(sha: Hash, s: Sender, h: int, full: bool)
    requires Inv(sha, s) && h in s.tasks && s.tasks[h].stage.Encrypting?
    requires s.tasks[h].stage.next <= ChunkCount(|s.tasks[h].file.data|)
    ensures Inv(sha, LoopHead(s, h, s.tasks[h].stage.next, full))
  {
    var t := s.tasks[h];
    if t.stage.next == ChunkCount(|t.file.data|) {
      FinishKeeps(sha, s, h);
      var u := Finish(s, h);
      var v := u.(finished := s.finished[t.transferId := t.file]);
      forall i | i in v.cut && i !in v.twice ensures Silenced(v, i) {
        assert Silenced(u, i);
      }
    } else {
      ChunkStepKeeps(sha, s, h, t.stage.next, full);
    }
  }

  // ----- Waking -----

  /** The calls are the same; some parked ones were woken. */
  ghost predicate Woke(tasks: map<int, Task>, woken: map<int, Task>)
  {
    woken.Keys == tasks.Keys
    && forall h :: h in tasks ==>
         woken[h] == tasks[h]
         || (tasks[h].stage.Parked? && woken[h].stage.Woken? && woken[h].stage.next == tasks[h].stage.next
             && woken[h] == tasks[h].(stage := woken[h].stage))
  }

  lemma {:induction false} WakeAllWakes(tasks: map<int, Task>, ws: seq<Waiter>, all: bool, bad: set<int>)
    requires forall i, j :: 0 <= i < j < |ws| ==> ws[i].task != ws[j].task
    ensures Woke(tasks, WakeAll(tasks, ws, all, bad))
    ensures forall h :: h in tasks && tasks[h].stage.Parked? ==>
              (WakeAll(tasks, ws, all, bad)[h].stage.Parked? <==> forall i :: 0 <= i < |ws| ==> ws[i].task != h)
    ensures forall i :: 0 <= i < |ws| && ws[i].task in tasks && tasks[ws[i].task].stage.Parked? ==>
              WakeAll(tasks, ws, all, bad)[ws[i].task].stage
                == Woken(tasks[ws[i].task].stage.next, all && ws[i].transferId !in bad)
    decreases |ws|
  {
    if ws != [] {
      var last := |ws| - 1;
      WakeAllWakes(tasks, ws[..last], all, bad);
      assert forall i :: 0 <= i < last ==> ws[..last][i] == ws[i];
    }
  }

  lemma {:induction false} RejectWakes(tasks: map<int, Task>, ws: seq<Waiter>, id: int)
    requires forall i, j :: 0 <= i < j < |ws| ==> ws[i].task != ws[j].task
    ensures Woke(tasks, Reject(tasks, ws, id))
    ensures forall h :: h in tasks && tasks[h].stage.Parked? ==>
              (Reject(tasks, ws, id)[h].stage.Parked?
               <==> forall i :: 0 <= i < |ws| ==> ws[i].task == h ==> ws[i].transferId != id)
    ensures forall i :: 0 <= i < |ws| && ws[i].task in tasks && tasks[ws[i].task].stage.Parked? && ws[i].transferId == id ==>
              Reject(tasks, ws, id)[ws[i].task].stage == Woken(tasks[ws[i].task].stage.next, false)
    decreases |ws|
  {
    if ws != [] {
      RejectWakes(tasks, ws[1..], id);
      assert forall i :: 0 < i < |ws| ==> ws[i] == ws[1..][i - 1];
    }
  }

  lemma {:induction false} OthersAre(ws: seq<Waiter>, id: int)
    requires forall i, j :: 0 <= i < j < |ws| ==> ws[i].task != ws[j].task
    ensures forall w :: w in Others(ws, id) <==> w in ws && w.transferId != id
    ensures forall i, j :: 0 <= i < j < |Others(ws, id)| ==> Others(ws, id)[i].task != Others(ws, id)[j].task
  {
    if ws != [] {
      OthersAre(ws[1..], id);
      assert ws == [ws[0]] + ws[1..];
      forall w | w in Others(ws[1..], id) ensures w.task != ws[0].task {
        assert w in ws[1..];
      }
    }
  }

  /** All that does not concern parking survives a waking. */
  lemma WokeKeeps(sha: Hash, s: Sender, woken: map<int, Task>)
    requires Ids(s) && Alone(s) && Cancelling(s) && Scripted(sha, s) && Woke(s.tasks, woken)
    ensures var t := s.(tasks := woken);
            Ids(t) && Alone(t) && Cancelling(t) && Scripted(sha, t)
  {
    var t := s.(tasks := woken);
    forall i | i in t.cut && i !in t.twice ensures Silenced(t, i) {
      assert Silenced(s, i);
    }
    forall h | h in t.tasks && t.tasks[h].transferId !in t.twice ensures Sent(sha, t.log, t.tasks[h]) {
      assert Sent(sha, s.log, s.tasks[h]);
    }
  }

  /** Settling every waiter, one way or the other. */
  lemma SettledKeeps(sha: Hash, s: Sender, all: bool, bad: set<int>)
    requires Inv(sha, s)
    ensures Inv(sha, s.(tasks := WakeAll(s.tasks, s.waiters, all, bad), waiters := []))
  {
    var woken := WakeAll(s.tasks, s.waiters, all, bad);
    WakeAllWakes(s.tasks, s.waiters, all, bad);
    WokeKeeps(sha, s, woken);
    AllWoken(s, all, bad);
    Unparked(sha, s.(tasks := woken));
  }

  lemma Unparked(sha: Hash, s: Sender)
    requires Counts(s) && Ids(s) && Alone(s) && Cancelling(s) && Scripted(sha, s)
    requires forall h :: h in s.tasks ==> !s.tasks[h].stage.Parked?
    ensures Inv(sha, s.(waiters := []))
  {
    var t := s.(waiters := []);
    forall i | i in t.cut && i !in t.twice ensures Silenced(t, i) {
      assert Silenced(s, i);
    }
  }

  lemma AllWoken(s: Sender, all: bool, bad: set<int>)
    requires Parking(s)
    ensures forall h :: h in s.tasks ==> h in WakeAll(s.tasks, s.waiters, all, bad) && !WakeAll(s.tasks, s.waiters, all, bad)[h].stage.Parked?
  {
    WakeAllWakes(s.tasks, s.waiters, all, bad);
    forall h | h in s.tasks && s.tasks[h].stage.Parked? ensures exists i :: 0 <= i < |s.waiters| && s.waiters[i].task == h {
      assert Waiter(h, s.tasks[h].transferId) in s.waiters;
    }
  }

  lemma TeardownKeeps(sha: Hash, s: Sender)
    requires Inv(sha, s)
    ensures Inv(sha, Teardown(s))
  {
    SettledKeeps(sha, s, false, {});
    var r := s.(tasks := WakeAll(s.tasks, s.waiters, false, {}), waiters := []);
    var t := Teardown(s);
    forall i | i in t.cut && i !in t.twice ensures Silenced(t, i) {
      assert Silenced(r, i);
    }
  }

  lemma CancelKeeps(sha: Hash, s: Sender, id: int)
    requires Inv(sha, s)
    ensures Inv(sha, Cancel(s, id))
  {
    if id in s.active {
      CutKeeps(sha, s, id);
      if id in s.manifestSent && !s.tearingDown && !Exhausted(s) {
        SendKeeps(sha, Cut(s, id), CancelFrame(id));
      }
    }
  }

  lemma CutKeeps(sha: Hash, s: Sender, id: int)
    requires Inv(sha, s) && id in s.active
    ensures Inv(sha, Cut(s, id))
  {
    var woken := Reject(s.tasks, s.waiters, id);
    RejectWakes(s.tasks, s.waiters, id);
    WokeKeeps(sha, s, woken);
    CutOthers(sha, s.(tasks := woken), id, Others(s.waiters, id));
    RejectParking(s, id);
  }

  lemma CutOthers(sha: Hash, s: Sender, id: int, waiters: seq<Waiter>)
    requires Counts(s) && Ids(s) && Alone(s) && Cancelling(s) && Scripted(sha, s) && id in s.active
    ensures var c := s.(cancelled := s.cancelled + {id}, active := s.active - {id}, waiters := waiters, cut := s.cut[id := |s.log|]);
            Counts(c) && Ids(c) && Alone(c) && Cancelling(c) && Scripted(sha, c)
  {
    var c := s.(cancelled := s.cancelled + {id}, active := s.active - {id}, waiters := waiters, cut := s.cut[id := |s.log|]);
    forall i | i in c.cut && i !in c.twice ensures Silenced(c, i) {
      if i != id {
        assert Silenced(s, i);
      }
    }
  }

  lemma RejectParking(s: Sender, id: int)
    requires Parking(s)
    ensures Parking(s.(cancelled := s.cancelled + {id}, tasks := Reject(s.tasks, s.waiters, id), waiters := Others(s.waiters, id)))
  {
    var tasks, ws := Reject(s.tasks, s.waiters, id), Others(s.waiters, id);
    RejectWakes(s.tasks, s.waiters, id);
    OthersAre(s.waiters, id);
    forall i | 0 <= i < |ws|
      ensures ws[i].task in tasks && tasks[ws[i].task].stage.Parked? && tasks[ws[i].task].transferId == ws[i].transferId
      ensures ws[i].transferId !in s.cancelled + {id}
    {
      assert ws[i] in ws;
      var j :| 0 <= j < |s.waiters| && s.waiters[j] == ws[i];
      assert IsParked(s, s.waiters[j]);
    }
    forall h | h in tasks && tasks[h].stage.Parked? ensures Waiter(h, tasks[h].transferId) in ws {
      var w := Waiter(h, s.tasks[h].transferId);
      assert w in s.waiters;
      var j :| 0 <= j < |s.waiters| && s.waiters[j] == w;
      assert s.waiters[j].transferId != id;
    }
  }

  /** Every step keeps the invariant. */
  lemma NextKeeps(sha: Hash, s: Sender, e: Event)
    requires Inv(sha, s) && Enabled(s, e)
    ensures Inv(sha, Next(sha, s, e))
  {
    match e
    case SendsText(b) => SendKeeps(sha, s, TextFrame(b));
    case SendsControl(subtype, b) => SendKeeps(sha, s, ControlFrame(subtype, b));
    case Begins => BeginKeeps(sha, s);
    case Drives(h, id, file) =>
      if id in s.active {
        StartedKeeps(sha, s, h, id, file);
        FinishKeeps(sha, Started(s, h, id, file), h);
      }
    case HashDone(h, ok) => HashedKeeps(sha, s, h, ok);
    case EncryptDone(h, ok, full) => if ok { LoopHeadKeeps(sha, s, h, full); } else { FinishKeeps(sha, s, h); }
    case Resumes(h, full) =>
      if s.tasks[h].stage.ok { ChunkStepKeeps(sha, s, h, s.tasks[h].stage.next, full); } else { FinishKeeps(sha, s, h); }
    case Unwinds(h) => FinishKeeps(sha, s, h);
    case Cancels(id) => CancelKeeps(sha, s, id);
    case Drains => SettledKeeps(sha, s, !s.tearingDown, s.cancelled);
    case TearsDown => TeardownKeeps(sha, s);
  }

  // ----- Whole runs -----

  /** `s` is where a new sender stands after the steps `es`. */
  ghost predicate Reached(sha: Hash, es: seq<Event>, s: Sender)
    decreases |es|
  {
    if es == [] then s == IDLE
    else
      var last := |es| - 1;
      exists r :: Reached(sha, es[..last], r) && Enabled(r, es[last]) && s == Next(sha, r, es[last])
  }

  lemma ReachedNext(sha: Hash, es: seq<Event>, s: Sender, e: Event)
    requires Reached(sha, es, s) && Enabled(s, e)
    ensures Reached(sha, es + [e], Next(sha, s, e))
  {
    assert (es + [e])[..|es|] == es;
  }

  lemma {:induction false} ReachedInv(sha: Hash, es: seq<Event>, s: Sender)
    requires Reached(sha, es, s)
    ensures Inv(sha, s)
    decreases |es|
  {
    if es != [] {
      var last := |es| - 1;
      var r :| Reached(sha, es[..last], r) && Enabled(r, es[last]) && s == Next(sha, r, es[last]);
      ReachedInv(sha, es[..last], r);
      NextKeeps(sha, r, es[last]);
    }
  }

  /** No two frames share a nonce: the k-th frame of the log is encrypted under sequence number k,
      every number fits 32 bits, and the nonce is one to one in it. */
  lemma NoncesDistinct(sha: Hash, es: seq<Event>, s: Sender, session: Bytes, i: nat, j: nat)
    requires Reached(sha, es, s) && |session| == Codec.SESSION_ID_BYTES
    requires i < j < |s.log|
    ensures |s.log| == s.sequence && j <= UINT32_MAX
    ensures Codec.Nonce(session, i) != Codec.Nonce(session, j)
  {
    ReachedInv(sha, es, s);
    if Codec.Nonce(session, i) == Codec.Nonce(session, j) {
      Codec.NonceInjective(session, i, j);
    }
  }

  /** Once the sequence space is used up, no step gives a frame a number: not even the cancel that a
      failing transfer tries to send. */
  lemma ExhaustedIsFinal(sha: Hash, s: Sender, e: Event)
    requires Exhausted(s) && Enabled(s, e)
    ensures Next(sha, s, e).log == s.log && Exhausted(Next(sha, s, e))
  {
  }

  /** Cancelling. In every run, for a transfer that at most one call drove: no frame of it is
      sequenced after the cancel took effect, and a TransferCancel for it comes after its manifest
      and after all its frames. */
  lemma CancelDiscipline(sha: Hash, es: seq<Event>, s: Sender, id: int, k: nat)
    requires Reached(sha, es, s) && k < |s.log| && id !in s.twice
    ensures id in s.cut && Of(s.log[k], id) ==> k < s.cut[id]
    ensures s.log[k] == CancelFrame(id) ==> Announced(s.log, id, k) && forall j :: k <= j < |s.log| ==> !Of(s.log[j], id)
  {
    ReachedInv(sha, es, s);
    if id in s.cut {
      assert Silenced(s, id);
    }
  }

  /** A transfer that is still reserved was never cancelled, and its sender is not torn down. */
  lemma ActiveIsFresh(sha: Hash, es: seq<Event>, s: Sender, id: int)
    requires Reached(sha, es, s)
    ensures id in s.active ==> id !in s.cut && id !in s.cancelled && !s.tearingDown
  {
    ReachedInv(sha, es, s);
  }

  /** At most one TransferCancel per transfer, however it was driven: `cancelTransfer` answers true
      only once. */
  lemma CancelledOnce(sha: Hash, es: seq<Event>, s: Sender, id: int)
    requires Reached(sha, es, s) && id in s.cut
    ensures id !in s.active && Cancel(s, id) == s
  {
    ReachedInv(sha, es, s);
  }

  /** Waiters. In every run each parked call has exactly one waiter; none is parked for a cancelled
      transfer or on a sender that was torn down; and a drain settles them all. */
  lemma WaitersSettle(sha: Hash, es: seq<Event>, s: Sender, h: int)
    requires Reached(sha, es, s) && h in s.tasks && s.tasks[h].stage.Parked?
    ensures exists i :: 0 <= i < |s.waiters| && s.waiters[i].task == h
              && forall j :: 0 <= j < |s.waiters| && s.waiters[j].task == h ==> j == i
    ensures s.tasks[h].transferId !in s.cancelled && !s.tearingDown
    ensures h in Drain(s).tasks && Drain(s).tasks[h].stage == Woken(s.tasks[h].stage.next, true)
  {
    ReachedInv(sha, es, s);
    ParkedOnce(s, h);
  }

  lemma ParkedOnce(s: Sender, h: int)
    requires Parking(s) && h in s.tasks && s.tasks[h].stage.Parked?
    ensures exists i :: 0 <= i < |s.waiters| && s.waiters[i].task == h
              && forall j :: 0 <= j < |s.waiters| && s.waiters[j].task == h ==> j == i
    ensures s.tasks[h].transferId !in s.cancelled && !s.tearingDown
    ensures h in Drain(s).tasks && Drain(s).tasks[h].stage == Woken(s.tasks[h].stage.next, true)
  {
    var w := Waiter(h, s.tasks[h].transferId);
    var i :| 0 <= i < |s.waiters| && s.waiters[i] == w;
    assert s.waiters[i].task == h;
    WakeAllWakes(s.tasks, s.waiters, !s.tearingDown, s.cancelled);
  }

  /** A transfer that one call drove and that was reported sent was sequenced completely: its manifest
      and then every canonical chunk of the file, once each and in order. */
  lemma SentCompletely(sha: Hash, es: seq<Event>, s: Sender, id: int)
    requires Reached(sha, es, s) && id in s.finished && id !in s.twice
    ensures FramesOf(s.log, id) == Script(sha, id, s.finished[id], ChunkCount(|s.finished[id].data|))
  {
    ReachedInv(sha, es, s);
  }

  /** The limits: at most four reservations, and ids never reused. */
  lemma Reservations(sha: Hash, es: seq<Event>, s: Sender)
    requires Reached(sha, es, s)
    ensures |s.active| <= MAX_CONCURRENT_TRANSFERS
    ensures SenderSpec.Begin(s) != s ==> s.nextTransferId !in s.active + s.driven + s.cut.Keys
  {
    ReachedInv(sha, es, s);
  }

  /** Without the condition that one call drives the transfer, the first claim of `CancelDiscipline`
      fails: two calls drive one reserved transfer, it is cancelled, the first call's cleanup forgets
      the cancel, and the second call goes on sending. */
  lemma TwiceDrivenEscapesCancel(sha: Hash, file: File) returns (es: seq<Event>, s: Sender)
    requires |file.data| == 1 && ManifestFault(ManifestOf(sha, FIRST_TRANSFER_ID, file)).None?
    ensures Reached(sha, es, s) && FIRST_TRANSFER_ID in s.cut
    ensures exists k :: s.cut[FIRST_TRANSFER_ID] <= k < |s.log| && Of(s.log[k], FIRST_TRANSFER_ID)
  {
    var id := FIRST_TRANSFER_ID;
    es := [Begins, Drives(1, id, file), Drives(2, id, file), Cancels(id), HashDone(1, true), HashDone(2, true)];
    var s2 := DrivenTwice(sha, es, file);
    var s3 := ReachedAt(sha, es, 3, s2);
    var s4 := ReachedAt(sha, es, 4, s3);
    s := ReachedAt(sha, es, 5, s4);
    assert es[..6] == es;
    assert s3.cut[id] == 0 && id !in s4.cancelled;
    assert Of(s.log[0], id);
  }

  lemma ReachedAt(sha: Hash, es: seq<Event>, k: nat, s: Sender) returns (n: Sender)
    requires k < |es| && Reached(sha, es[..k], s) && Enabled(s, es[k])
    ensures n == Next(sha, s, es[k]) && Reached(sha, es[..k + 1], n)
  {
    n := Next(sha, s, es[k]);
    ReachedNext(sha, es[..k], s, es[k]);
    assert es[..k] + [es[k]] == es[..k + 1];
  }

  lemma DrivenTwice(sha: Hash, es: seq<Event>, file: File) returns (s: Sender)
    requires |file.data| == 1 && |es| >= 3
    requires var id := FIRST_TRANSFER_ID; es[0] == Begins && es[1] == Drives(1, id, file) && es[2] == Drives(2, id, file)
    ensures Reached(sha, es[..3], s)
    ensures var id := FIRST_TRANSFER_ID;
            s == IDLE.(active := {id}, nextTransferId := id + 1, driven := {id}, twice := {id},
                       tasks := map[1 := Task(id, file, Hashing), 2 := Task(id, file, Hashing)])
  {
    var s0 := ReachedAt(sha, es, 0, IDLE);
    var s1 := ReachedAt(sha, es, 1, s0);
    s := ReachedAt(sha, es, 2, s1);
  }
}
