/** The frame sender (`framing/sender.ts`). Each method is one stretch of a call between two awaits;
    `tasks` holds the `sendFile` calls that are suspended. What a step does is given by SenderSpec, and
    what every run keeps is proved there. */
module Sender {
  import opened Bytes
  import opened Manifest
  import opened SenderSpec
  import SenderRuns
  import Codec

  datatype SendError = TearingDown | UnknownControlSubtype | ConcurrentTransfersExceeded | SequenceExhausted
                     | UnknownTransfer | FileTooLarge

  const TRANSFER_CANCEL: int := 6
  const CONTROL_SUBTYPES: set<int> := {1, 2, 3, 4, 5, TRANSFER_CANCEL}
  const GROUP_CONTROL_SUBTYPES: set<int> := {7, 8}

  lemma RejectStep(all: seq<Waiter>, i: nat, id: int, tasks: map<int, Task>, ws: seq<Waiter>)
    requires i < |all| && ws == all[..i + 1] + Others(all[i + 1..], id)
    ensures ws[i] == all[i]
    ensures Reject(tasks, all[i..], id)
         == if all[i].transferId == id then Wake(Reject(tasks, all[i + 1..], id), all[i], false) else Reject(tasks, all[i + 1..], id)
    ensures all[..i] + Others(all[i..], id) == if all[i].transferId == id then ws[..i] + ws[i + 1..] else ws
  {
    assert all[i..][1..] == all[i + 1..];
  }

  class FrameSender {
    const sha: Hash
    const session: Bytes
    const allowGroupControlSubtypes: bool

    var sequence: int
    var nextTransferId: int
    var activeTransfers: set<int>
    var cancelledTransfers: set<int>
    var manifestSentTransfers: set<int>
    var drainWaiters: seq<Waiter>
    var tearingDown: bool
    var tasks: map<int, Task>
    var log: seq<Frame>

    ghost var driven: set<int>
    ghost var twice: set<int>
    ghost var cut: map<int, nat>
    ghost var finished: map<int, File>
    ghost var events: seq<Event>

    ghost function View(): SenderSpec.Sender
      reads this`sequence, this`nextTransferId, this`activeTransfers, this`cancelledTransfers, this`manifestSentTransfers
      reads this`drainWaiters, this`tearingDown, this`tasks, this`log, this`driven, this`twice, this`cut, this`finished
    {
      SenderSpec.Sender(sequence, nextTransferId, activeTransfers, cancelledTransfers, manifestSentTransfers,
                        drainWaiters, tearingDown, tasks, log, driven, twice, cut, finished)
    }

    /** The state is one that the specification reaches. */
    ghost predicate Valid()
      reads this
    {
      SenderRuns.Reached(sha, events, View())
    }

    /** The step about to be carried out goes on record. */
    ghost method Record(e: Event)
      requires Valid() && Enabled(View(), e)
      modifies this`events
      ensures SenderRuns.Reached(sha, events, Next(sha, old(View()), e)) && View() == old(View())
    {
      SenderRuns.ReachedNext(sha, events, View(), e);
      events := events + [e];
    }

    constructor (sha: Hash, session: Bytes, allowGroupControlSubtypes: bool)
      ensures Valid() && View() == IDLE && this.sha == sha && this.session == session
    {
      this.sha, this.session, this.allowGroupControlSubtypes := sha, session, allowGroupControlSubtypes;
      sequence, nextTransferId := 0, FIRST_TRANSFER_ID;
      activeTransfers, cancelledTransfers, manifestSentTransfers, drainWaiters := {}, {}, {}, [];
      tearingDown, tasks, log := false, map[], [];
      driven, twice, cut, finished, events := {}, {}, map[], map[], [];
    }

    /** `sendEncryptedFrame` up to the encryption: the frame takes the next sequence number. */
    method Sequence(frame: Frame) returns (r: Result<int, SendError>)
      modifies this`sequence, this`log
      ensures View() == Send(old(View()), frame)
      ensures r == if tearingDown then Err(TearingDown)
                   else if Exhausted(old(View())) then Err(SequenceExhausted) else Ok(old(sequence))
    {
      if tearingDown {
        return Err(TearingDown);
      }
      if sequence > MAX_SEQUENCE {
        return Err(SequenceExhausted);
      }
      r := Ok(sequence);
      sequence := sequence + 1;
      log := log + [frame];
    }

    method SendText(plaintext: Bytes) returns (r: Result<int, SendError>)
      requires Valid()
      modifies this`sequence, this`log, this`events
      ensures Valid() && View() == Next(sha, old(View()), SendsText(plaintext))
      ensures log == if tearingDown || old(sequence) > MAX_SEQUENCE then old(log) else old(log) + [TextFrame(plaintext)]
      ensures r.Ok? <==> log != old(log)
    {
      Record(SendsText(plaintext));
      r := Sequence(TextFrame(plaintext));
    }

    method SendControl(subtype: int, payload: Bytes) returns (r: Result<int, SendError>)
      requires Valid()
      modifies this`sequence, this`log, this`events
      ensures Valid()
      ensures var known := subtype in CONTROL_SUBTYPES || (allowGroupControlSubtypes && subtype in GROUP_CONTROL_SUBTYPES);
              if known then View() == Next(sha, old(View()), SendsControl(subtype, payload))
              else View() == old(View()) && r == Err(if tearingDown then TearingDown else UnknownControlSubtype)
      ensures var known := subtype in CONTROL_SUBTYPES || (allowGroupControlSubtypes && subtype in GROUP_CONTROL_SUBTYPES);
              log == if !known || tearingDown || old(sequence) > MAX_SEQUENCE then old(log)
                     else old(log) + [ControlFrame(subtype, payload)]
    {
      if tearingDown {
        SenderRuns.ReachedNext(sha, events, View(), SendsControl(subtype, payload));
        return Err(TearingDown);
      }
      if subtype !in CONTROL_SUBTYPES && !(allowGroupControlSubtypes && subtype in GROUP_CONTROL_SUBTYPES) {
        return Err(UnknownControlSubtype);
      }
      Record(SendsControl(subtype, payload));
      r := Sequence(ControlFrame(subtype, payload));
    }

    method BeginFileTransfer() returns (r: Result<int, SendError>)
      requires Valid()
      modifies this`activeTransfers, this`nextTransferId, this`events
      ensures Valid() && View() == Next(sha, old(View()), Begins)
      ensures r.Ok? ==> r.value !in old(activeTransfers) && r.value in activeTransfers && |activeTransfers| <= MAX_CONCURRENT_TRANSFERS
      ensures r.Err? ==> View() == old(View())
    {
      SenderRuns.ReachedNext(sha, events, View(), Begins);
      SenderRuns.Reservations(sha, events, View());
      if tearingDown {
        return Err(TearingDown);
      }
      if |activeTransfers| >= MAX_CONCURRENT_TRANSFERS {
        return Err(ConcurrentTransfersExceeded);
      }
      if nextTransferId > UINT32_MAX {
        return Err(SequenceExhausted);
      }
      events := events + [Begins];
      r := Ok(nextTransferId);
      nextTransferId := nextTransferId + 1;
      activeTransfers := activeTransfers + {r.value};
      SenderRuns.Reservations(sha, events, View());
    }

    /** The `finally` of `sendFile`. */
    method Release(task: int)
      requires task in tasks
      modifies this`tasks, this`activeTransfers, this`cancelledTransfers, this`manifestSentTransfers
      ensures View() == Finish(old(View()), task)
    {
      var id := tasks[task].transferId;
      tasks := tasks - {task};
      activeTransfers := activeTransfers - {id};
      cancelledTransfers := cancelledTransfers - {id};
      manifestSentTransfers := manifestSentTransfers - {id};
    }

    /** `sendFile` up to the hash. */
    method SendFile(task: int, transferId: int, file: File) returns (r: Result<(), SendError>)
      requires Valid() && task !in tasks
      modifies this`tasks, this`activeTransfers, this`cancelledTransfers, this`manifestSentTransfers, this`driven, this`twice, this`events
      ensures Valid() && View() == Next(sha, old(View()), Drives(task, transferId, file))
      ensures r == if transferId !in old(activeTransfers) then Err(UnknownTransfer)
                   else if |file.data| > MAX_INCOMPLETE_TRANSFER_BYTES then Err(FileTooLarge) else Ok(())
    {
      SenderRuns.ReachedNext(sha, events, View(), Drives(task, transferId, file));
      SenderRuns.ActiveIsFresh(sha, events, View(), transferId);
      if transferId !in activeTransfers {
        return Err(UnknownTransfer);
      }
      events := events + [Drives(task, transferId, file)];
      Enter(task, transferId, file);
      if tearingDown {
        assert false;
      }
      if |file.data| > MAX_INCOMPLETE_TRANSFER_BYTES {
        Release(task);
        return Err(FileTooLarge);
      }
      return Ok(());
    }

    method Enter(task: int, transferId: int, file: File)
      modifies this`tasks, this`driven, this`twice
      ensures View() == Started(old(View()), task, transferId, file)
    {
      tasks := tasks[task := Task(transferId, file, Hashing)];
      twice := if transferId in driven then twice + {transferId} else twice;
      driven := driven + {transferId};
    }

    predicate StoppedFor(id: int)
      reads this`tearingDown, this`cancelledTransfers
    {
      tearingDown || id in cancelledTransfers
    }

    method MoveTo(task: int, stage: Stage)
      requires task in tasks
      modifies this`tasks
      ensures View() == At(old(View()), task, stage)
    {
      tasks := tasks[task := tasks[task].(stage := stage)];
    }

    /** The hash is there, or failed: announce the file. */
    method HashResolved(task: int, ok: bool)
      requires Valid() && Enabled(View(), HashDone(task, ok))
      modifies this`tasks, this`activeTransfers, this`cancelledTransfers, this`manifestSentTransfers
      modifies this`sequence, this`log, this`events
      ensures Valid() && View() == Next(sha, old(View()), HashDone(task, ok))
    {
      Record(HashDone(task, ok));
      SendManifest(task, ok);
    }

    method SendManifest(task: int, ok: bool)
      requires task in tasks
      modifies this`tasks, this`activeTransfers, this`cancelledTransfers, this`manifestSentTransfers, this`sequence, this`log
      ensures View() == Hashed(sha, old(View()), task, ok)
    {
      var t := tasks[task];
      var manifest := ManifestOf(sha, t.transferId, t.file);
      if !ok || StoppedFor(t.transferId) {
        Release(task);
        return;
      }
      manifestSentTransfers := manifestSentTransfers + {t.transferId};
      var encoded := EncodeManifest(manifest);
      if encoded.Err? {
        Release(task);
        return;
      }
      var sent := Sequence(ManifestFrame(t.transferId, manifest));
      if sent.Ok? {
        MoveTo(task, Encrypting(0));
      } else {
        CancelLost(task);
      }
    }

    /** The catch for an exhausted sequence space: the cancel it tries to send finds none left. */
    method CancelLost(task: int)
      requires task in tasks && Exhausted(View()) && !tearingDown
      modifies this`tasks, this`sequence, this`log
      ensures View() == At(old(View()), task, Unwinding)
    {
      var sent := Sequence(ControlFrame(TRANSFER_CANCEL, []));
      if sent.Ok? {
        assert false;
      }
      MoveTo(task, Unwinding);
    }

    /** From the wait for the transport to the next chunk; `full` is what `isFileBackpressured` answers. */
    method SendChunk(task: int, next: nat, full: bool)
      requires task in tasks && next < ChunkCount(|tasks[task].file.data|)
      modifies this`tasks, this`activeTransfers, this`cancelledTransfers, this`manifestSentTransfers
      modifies this`drainWaiters, this`sequence, this`log
      ensures View() == ChunkStep(old(View()), task, next, full)
    {
      var t := tasks[task];
      if StoppedFor(t.transferId) {
        Release(task);
        return;
      }
      if full {
        drainWaiters := drainWaiters + [Waiter(task, t.transferId)];
        MoveTo(task, Parked(next));
        return;
      }
      var (start, end) := ChunkBoundaries(|t.file.data|, next);
      ChunksTile(|t.file.data|, next);
      var chunk := t.file.data[start..end];
      var sent := Sequence(ChunkFrame(t.transferId, next, chunk));
      if sent.Ok? {
        MoveTo(task, Encrypting(next + 1));
      } else {
        CancelLost(task);
      }
    }

    /** A frame of the transfer was encrypted and handed to the transport, or that failed. The result is
        the resolved value of `sendFile`, when it resolves. */
    method FrameEncrypted(task: int, ok: bool, full: bool) returns (resolved: Option<int>)
      requires Valid() && Enabled(View(), EncryptDone(task, ok, full))
      modifies this`tasks, this`activeTransfers, this`cancelledTransfers, this`manifestSentTransfers
      modifies this`drainWaiters, this`sequence, this`log, this`finished, this`events
      ensures Valid() && View() == Next(sha, old(View()), EncryptDone(task, ok, full))
      ensures resolved.Some? ==> resolved.value in finished && resolved.value == old(tasks)[task].transferId
      ensures finished == if resolved.Some? then old(finished)[resolved.value := old(tasks)[task].file] else old(finished)
    {
      Record(EncryptDone(task, ok, full));
      var t := tasks[task];
      if !ok {
        Release(task);
        return None;
      }
      if t.stage.next == ChunkCount(|t.file.data|) {
        Release(task);
        finished := finished[t.transferId := t.file];
        return Some(t.transferId);
      }
      SendChunk(task, t.stage.next, full);
      return None;
    }

    /** A waiter was settled and its call runs again. */
    method Resume(task: int, full: bool)
      requires Valid() && Enabled(View(), Resumes(task, full))
      modifies this`tasks, this`activeTransfers, this`cancelledTransfers, this`manifestSentTransfers
      modifies this`drainWaiters, this`sequence, this`log, this`events
      ensures Valid() && View() == Next(sha, old(View()), Resumes(task, full))
    {
      Record(Resumes(task, full));
      if !tasks[task].stage.ok {
        Release(task);
        return;
      }
      SendChunk(task, tasks[task].stage.next, full);
    }

    /** The failing call reaches its `finally`. */
    method Unwind(task: int)
      requires Valid() && Enabled(View(), Unwinds(task))
      modifies this`tasks, this`activeTransfers, this`cancelledTransfers, this`manifestSentTransfers, this`events
      ensures Valid() && View() == Next(sha, old(View()), Unwinds(task))
    {
      Record(Unwinds(task));
      Release(task);
    }

    /** A promise parked in the waiter list is settled. */
    method Settle(w: Waiter, ok: bool)
      modifies this`tasks
      ensures tasks == Wake(old(tasks), w, ok)
    {
      if w.task in tasks && tasks[w.task].stage.Parked? {
        tasks := tasks[w.task := tasks[w.task].(stage := Woken(tasks[w.task].stage.next, ok))];
      }
    }

    /** `rejectWaiters`: from the back, the waiters of one transfer leave the list. */
    method RejectWaiters(transferId: int)
      modifies this`tasks, this`drainWaiters
      ensures tasks == Reject(old(tasks), old(drainWaiters), transferId)
      ensures drainWaiters == Others(old(drainWaiters), transferId)
    {
      var i := |drainWaiters| - 1;
      ghost var all := drainWaiters;
      assert all == all[..i + 1] + all[i + 1..];
      while i >= 0
        invariant -1 <= i < |all|
        invariant drainWaiters == all[..i + 1] + Others(all[i + 1..], transferId)
        invariant tasks == Reject(old(tasks), all[i + 1..], transferId)
      {
        RejectStep(all, i, transferId, old(tasks), drainWaiters);
        if drainWaiters[i].transferId == transferId {
          var waiter := drainWaiters[i];
          drainWaiters := drainWaiters[..i] + drainWaiters[i + 1..];
          Settle(waiter, false);
        }
        i := i - 1;
      }
    }

    /** The loop that settles a list of waiters already taken off. */
    method SettleAll(waiters: seq<Waiter>, all: bool, bad: set<int>)
      modifies this`tasks
      ensures tasks == WakeAll(old(tasks), waiters, all, bad)
    {
      for i := 0 to |waiters|
        invariant tasks == WakeAll(old(tasks), waiters[..i], all, bad)
      {
        assert waiters[..i + 1][..i] == waiters[..i];
        Settle(waiters[i], all && waiters[i].transferId !in bad);
      }
      assert waiters[..|waiters|] == waiters;
    }

    method CancelTransfer(transferId: int) returns (done: bool)
      requires Valid()
      modifies this`activeTransfers, this`cancelledTransfers, this`tasks, this`drainWaiters, this`sequence, this`log, this`cut, this`events
      ensures Valid() && View() == Next(sha, old(View()), Cancels(transferId))
      ensures done <==> transferId in old(activeTransfers)
      ensures done ==> transferId !in old(cut) && cut == old(cut)[transferId := |old(log)|]
    {
      SenderRuns.ReachedNext(sha, events, View(), Cancels(transferId));
      SenderRuns.ActiveIsFresh(sha, events, View(), transferId);
      if transferId !in activeTransfers {
        return false;
      }
      events := events + [Cancels(transferId)];
      CutTransfer(transferId);
      if transferId in manifestSentTransfers {
        var _ := Sequence(CancelFrame(transferId));
      }
      return true;
    }

    method CutTransfer(transferId: int)
      modifies this`activeTransfers, this`cancelledTransfers, this`tasks, this`drainWaiters, this`cut
      ensures View() == Cut(old(View()), transferId)
    {
      cut := cut[transferId := |log|];
      cancelledTransfers := cancelledTransfers + {transferId};
      activeTransfers := activeTransfers - {transferId};
      RejectWaiters(transferId);
    }

    method HandleDrain()
      requires Valid()
      modifies this`tasks, this`drainWaiters, this`events
      ensures Valid() && View() == Next(sha, old(View()), Drains) && drainWaiters == []
    {
      Record(Drains);
      SettleDrained();
    }

    method SettleDrained()
      modifies this`tasks, this`drainWaiters
      ensures View() == Drain(old(View())) && drainWaiters == []
    {
      var waiters := drainWaiters;
      drainWaiters := [];
      SettleAll(waiters, !tearingDown, cancelledTransfers);
    }

    method TearDown()
      requires Valid()
      modifies this`tearingDown, this`tasks, this`drainWaiters, this`activeTransfers, this`manifestSentTransfers, this`events
      ensures Valid() && View() == Next(sha, old(View()), TearsDown)
      ensures tearingDown && activeTransfers == {} && manifestSentTransfers == {} && drainWaiters == [] && log == old(log)
    {
      Record(TearsDown);
      Stop();
    }

    method Stop()
      modifies this`tearingDown, this`tasks, this`drainWaiters, this`activeTransfers, this`manifestSentTransfers
      ensures View() == Teardown(old(View()))
    {
      tearingDown := true;
      var waiters := drainWaiters;
      drainWaiters := [];
      SettleAll(waiters, false, {});
      activeTransfers := {};
      manifestSentTransfers := {};
    }
  }
}
