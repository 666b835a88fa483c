/** That the sender sends (`framing/sender.ts`): what each call and each await puts in the log, and that a
    file nobody stops is sent completely. SenderRuns says what may never be sequenced. */
module SenderProgress {
  import opened Bytes
  import opened Manifest
  import opened SenderSpec
  import opened SenderRuns

  /** A text and a control call each append exactly their own frame, unless the sender is torn down or its
      sequence numbers are used up, and touch nothing else. */
  lemma CallSends(sha: Hash, s: Sender, b: Bytes, subtype: int)
    ensures var open := !s.tearingDown && s.sequence <= 0xffff_ffff;
            Next(sha, s, SendsText(b))
              == (if open then s.(sequence := s.sequence + 1, log := s.log + [TextFrame(b)]) else s)
            && Next(sha, s, SendsControl(subtype, b))
              == (if open then s.(sequence := s.sequence + 1, log := s.log + [ControlFrame(subtype, b)]) else s)
  {
  }

  /** A reservation is granted exactly while the sender stands, fewer than four are held and ids are left. */
  lemma BeginReserves(s: Sender)
    ensures var n := SenderSpec.Begin(s);
            if !s.tearingDown && |s.active| < 4 && s.nextTransferId <= 0xffff_ffff
            then n == s.(active := s.active + {s.nextTransferId}, nextTransferId := s.nextTransferId + 1)
            else n == s
  {
  }

  /** A cancel takes effect exactly on a reserved transfer: the reservation goes, every parked call of it wakes to
      its end, and a TransferCancel is sequenced exactly when its manifest was marked as sent and numbers are
      left. */
  lemma CancelExactly(sha: Hash, es: seq<Event>, s: Sender, id: int)
    requires Reached(sha, es, s)
    ensures var n := Next(sha, s, Cancels(id));
            if id !in s.active then n == s
            else id in n.cancelled && n.active == s.active - {id}
                 && n.log == (if id in s.manifestSent && s.sequence <= 0xffff_ffff then s.log + [CancelFrame(id)] else s.log)
                 && (forall i :: 0 <= i < |n.waiters| ==> n.waiters[i].transferId != id)
                 && (forall h :: h in s.tasks && s.tasks[h].stage.Parked? && s.tasks[h].transferId == id ==>
                       h in n.tasks && n.tasks[h].stage == Woken(s.tasks[h].stage.next, false))
  {
    assert Parking(s) && Ids(s) by {
      ReachedInv(sha, es, s);
    }
    RejectedWake(s, id);
  }

  lemma RejectedWake(s: Sender, id: int)
    requires Parking(s)
    ensures forall i :: 0 <= i < |Others(s.waiters, id)| ==> Others(s.waiters, id)[i].transferId != id
    ensures forall h :: h in s.tasks && s.tasks[h].stage.Parked? && s.tasks[h].transferId == id ==>
              h in Reject(s.tasks, s.waiters, id) && Reject(s.tasks, s.waiters, id)[h].stage == Woken(s.tasks[h].stage.next, false)
  {
    RejectWakes(s.tasks, s.waiters, id);
    OthersAre(s.waiters, id);
    assert forall i :: 0 <= i < |Others(s.waiters, id)| ==> Others(s.waiters, id)[i] in Others(s.waiters, id);
    forall h | h in s.tasks && s.tasks[h].stage.Parked? && s.tasks[h].transferId == id
      ensures h in Reject(s.tasks, s.waiters, id) && Reject(s.tasks, s.waiters, id)[h].stage == Woken(s.tasks[h].stage.next, false)
    {
      var i :| 0 <= i < |s.waiters| && s.waiters[i] == Waiter(h, id);
    }
  }

  /** A teardown is final: no step sequences a frame afterwards, and none takes it back. */
  lemma TornDownIsFinal(sha: Hash, s: Sender, e: Event)
    requires s.tearingDown && Enabled(s, e)
    ensures Next(sha, s, e).log == s.log && Next(sha, s, e).tearingDown
  {
  }

  /** The call ends, its reservation with it. */
  predicate Gone(s: Sender, n: Sender, h: int)
    requires h in s.tasks
  {
    h !in n.tasks && s.tasks[h].transferId !in n.active && n.log == s.log
  }

  /** The call goes on, with `fs` sequenced. */
  predicate Moves(s: Sender, n: Sender, h: int, stage: Stage, fs: seq<Frame>)
    requires h in s.tasks
  {
    h in n.tasks && n.tasks[h] == s.tasks[h].(stage := stage) && n.log == s.log + fs && n.active == s.active
    && n.finished == s.finished && n.cancelled == s.cancelled && n.sequence == s.sequence + |fs|
  }

  /** Where the awaits of a `sendFile` call lead. The hash leads to the manifest; each frame that is out leads to
      the next chunk, in order, or after the last to the end; a cancel or a teardown ends the call; and a full
      transport parks it. */
  lemma AwaitsLead(sha: Hash, s: Sender, h: int, full: bool)
    requires h in s.tasks
    ensures var t := s.tasks[h];
            var id := t.transferId;
            var m := FileManifest(id, t.file.name, t.file.mimeType, |t.file.data|, ChunkCount(|t.file.data|), sha(t.file.data));
            t.stage.Hashing? ==>
              var n := Next(sha, s, HashDone(h, true));
              if s.tearingDown || id in s.cancelled || ManifestFault(m).Some? then Gone(s, n, h)
              else if s.sequence > 0xffff_ffff then Moves(s, n, h, Unwinding, [])
              else Moves(s, n, h, Encrypting(0), [ManifestFrame(id, m)])
    ensures var t := s.tasks[h]; var id, count := t.transferId, ChunkCount(|t.file.data|);
            t.stage.Encrypting? && t.stage.next <= count ==>
              var n, next := Next(sha, s, EncryptDone(h, true, full)), t.stage.next;
              if next == count then Gone(s, n, h) && n.finished == s.finished[id := t.file]
              else ChunkGoes(s, n, h, next, full)
    ensures var t := s.tasks[h];
            t.stage.Woken? && t.stage.ok && t.stage.next < ChunkCount(|t.file.data|) ==>
              ChunkGoes(s, Next(sha, s, Resumes(h, full)), h, t.stage.next, full)
  {
    var t := s.tasks[h];
    if (t.stage.Encrypting? || t.stage.Woken?) && t.stage.next < ChunkCount(|t.file.data|) {
      ChunkStepGoes(s, h, t.stage.next, full);
    }
  }

  /** What becomes of chunk `next` when its turn comes. */
  predicate ChunkGoes(s: Sender, n: Sender, h: int, next: nat, full: bool)
    requires h in s.tasks && next < ChunkCount(|s.tasks[h].file.data|)
  {
    var id, data := s.tasks[h].transferId, s.tasks[h].file.data;
    ChunksTile(|data|, next);
    if s.tearingDown || id in s.cancelled then Gone(s, n, h)
    else if full then Moves(s, n, h, Parked(next), []) && Waiter(h, id) in n.waiters
    else if s.sequence > 0xffff_ffff then Moves(s, n, h, Unwinding, [])
    else Moves(s, n, h, Encrypting(next + 1),
               [ChunkFrame(id, next, data[ChunkBoundaries(|data|, next).0..ChunkBoundaries(|data|, next).1])])
  }

  lemma ChunkStepGoes(s: Sender, h: int, next: nat, full: bool)
    requires h in s.tasks && next < ChunkCount(|s.tasks[h].file.data|)
    ensures ChunkGoes(s, ChunkStep(s, h, next, full), h, next, full)
  {
    var id := s.tasks[h].transferId;
    if !Stopped(s, id) && full {
      assert ChunkStep(s, h, next, full).waiters[|s.waiters|] == Waiter(h, id);
    }
  }

  // ----- A file nobody stops -----

  /** The frames of a file from chunk `next` on. */
  function Remaining(id: int, data: Bytes, next: nat): seq<Frame>
    requires next <= ChunkCount(|data|)
  {
    seq(ChunkCount(|data|) - next, i requires 0 <= i < ChunkCount(|data|) - next => ChunkFrame(id, next + i, Slice(data, next + i)))
  }

  /** The call is between two frames, nobody stopped it, and sequence numbers are left for the rest. */
  predicate Under(s: Sender, h: int, id: int, file: File, next: nat)
  {
    h in s.tasks && s.tasks[h] == Task(id, file, Encrypting(next)) && next <= ChunkCount(|file.data|)
    && !s.tearingDown && id !in s.cancelled && s.sequence + (ChunkCount(|file.data|) - next) <= 0xffff_ffff + 1
  }

  lemma NextChunk(sha: Hash, s: Sender, h: int, id: int, file: File, next: nat)
    requires Under(s, h, id, file, next) && next < ChunkCount(|file.data|)
    ensures var n := Next(sha, s, EncryptDone(h, true, false));
            Under(n, h, id, file, next + 1) && n.log == s.log + [ChunkFrame(id, next, Slice(file.data, next))] && n.finished == s.finished
  {
    AwaitsLead(sha, s, h, false);
  }

  lemma LastChunk(sha: Hash, s: Sender, h: int, id: int, file: File)
    requires Under(s, h, id, file, ChunkCount(|file.data|))
    ensures var n := Next(sha, s, EncryptDone(h, true, false)); n.log == s.log && n.finished == s.finished[id := file]
  {
    AwaitsLead(sha, s, h, false);
  }

  lemma FirstRemaining(id: int, data: Bytes, next: nat)
    requires next < ChunkCount(|data|)
    ensures Remaining(id, data, next) == [ChunkFrame(id, next, Slice(data, next))] + Remaining(id, data, next + 1)
  {
  }

  /** The steps `es` lead from `s` to `z`. */
  ghost predicate Leads(sha: Hash, s: Sender, es: seq<Event>, z: Sender)
    decreases |es|
  {
    if es == [] then z == s else Enabled(s, es[0]) && Leads(sha, Next(sha, s, es[0]), es[1..], z)
  }

  lemma LeadsFirst(sha: Hash, s: Sender, e: Event, es: seq<Event>, z: Sender)
    requires Enabled(s, e) && Leads(sha, Next(sha, s, e), es, z)
    ensures Leads(sha, s, [e] + es, z)
  {
    assert ([e] + es)[1..] == es;
  }

  lemma {:induction false} ReachedFurther(sha: Hash, es: seq<Event>, s: Sender, more: seq<Event>, z: Sender)
    requires Reached(sha, es, s) && Leads(sha, s, more, z)
    ensures Reached(sha, es + more, z)
    decreases |more|
  {
    if more == [] {
      assert es + more == es;
    } else {
      ReachedNext(sha, es, s, more[0]);
      ReachedFurther(sha, es + [more[0]], Next(sha, s, more[0]), more[1..], z);
      assert es + [more[0]] + more[1..] == es + more;
    }
  }

  /** From the frame before chunk `next` on: encrypting one frame after the other sends the rest of the file. */
  lemma {:induction false} SendsRest(sha: Hash, s: Sender, h: int, id: int, file: File, next: nat) returns (es: seq<Event>, z: Sender)
    requires Under(s, h, id, file, next)
    ensures Leads(sha, s, es, z)
    ensures z.log == s.log + Remaining(id, file.data, next) && z.finished == s.finished[id := file]
    decreases ChunkCount(|file.data|) - next
  {
    var e := EncryptDone(h, true, false);
    if next == ChunkCount(|file.data|) {
      LastChunk(sha, s, h, id, file);
      es, z := [], Next(sha, s, e);
    } else {
      NextChunk(sha, s, h, id, file, next);
      FirstRemaining(id, file.data, next);
      es, z := SendsRest(sha, Next(sha, s, e), h, id, file, next + 1);
    }
    LeadsFirst(sha, s, e, es, z);
    es := [e] + es;
  }

  lemma Announces(sha: Hash, s: Sender, h: int, id: int, file: File)
    requires id in s.active && h !in s.tasks && |file.data| <= MAX_INCOMPLETE_TRANSFER_BYTES && !s.tearingDown && id !in s.cancelled
    requires ManifestFault(ManifestOf(sha, id, file)).None? && s.sequence + 1 + ChunkCount(|file.data|) <= 0xffff_ffff + 1
    ensures var n := Next(sha, s, Drives(h, id, file));
            Enabled(n, HashDone(h, true))
            && var m := Next(sha, n, HashDone(h, true));
               Under(m, h, id, file, 0) && m.log == s.log + [ManifestFrame(id, ManifestOf(sha, id, file))] && m.finished == s.finished
  {
    AwaitsLead(sha, Next(sha, s, Drives(h, id, file)), h, false);
  }

  /** A file is sent: from any state of a run in which its id is reserved, and sequence numbers are left for
      it, a call that is not stopped and finds the transport free ends with the file reported sent, and with
      its manifest and every chunk in order at the end of the log. */
  lemma SendsFile(sha: Hash, es: seq<Event>, s: Sender, h: int, id: int, file: File) returns (more: seq<Event>, z: Sender)
    requires Reached(sha, es, s) && id in s.active && h !in s.tasks && |file.data| <= MAX_INCOMPLETE_TRANSFER_BYTES
    requires ManifestFault(ManifestOf(sha, id, file)).None? && s.sequence + 1 + ChunkCount(|file.data|) <= 0xffff_ffff + 1
    ensures Reached(sha, es + more, z) && id in z.finished && z.finished[id] == file
    ensures z.log == s.log + [ManifestFrame(id, ManifestOf(sha, id, file))] + Remaining(id, file.data, 0)
  {
    ActiveIsFresh(sha, es, s, id);
    Announces(sha, s, h, id, file);
    var driven := Next(sha, s, Drives(h, id, file));
    var announced := Next(sha, driven, HashDone(h, true));
    more, z := SendsRest(sha, announced, h, id, file, 0);
    LeadsFirst(sha, driven, HashDone(h, true), more, z);
    LeadsFirst(sha, s, Drives(h, id, file), [HashDone(h, true)] + more, z);
    more := [Drives(h, id, file)] + ([HashDone(h, true)] + more);
    ReachedFurther(sha, es, s, more, z);
  }
}
