/** When a cancelled transfer falls silent (`framing/sender.ts`), exactly. */
module CancelRuns {
  import opened Bytes
  import opened Manifest
  import opened SenderSpec
  import opened SenderRuns

  /** The steps `es` lead from `s` to `n`. */
  ghost predicate Leads(sha: Hash, s: Sender, es: seq<Event>, n: Sender)
    decreases |es|
  {
    if es == [] then n == s
    else
      var last := |es| - 1;
      exists r :: Leads(sha, s, es[..last], r) && Enabled(r, es[last]) && n == Next(sha, r, es[last])
  }

  lemma LeadsNext(sha: Hash, s: Sender, es: seq<Event>, r: Sender, e: Event)
    requires Leads(sha, s, es, r) && Enabled(r, e)
    ensures Leads(sha, s, es + [e], Next(sha, r, e))
  {
    assert (es + [e])[..|es|] == es;
  }

  predicate DrivenBy(s: Sender, h: int, id: int) { h in s.tasks && s.tasks[h].transferId == id }

  /** The call is not parked and, left alone, goes on to send a frame. */
  predicate AtWork(sha: Hash, t: Task)
  {
    match t.stage
    case Hashing => ManifestFault(ManifestOf(sha, t.transferId, t.file)).None?
    case Encrypting(n) => n < ChunkCount(|t.file.data|)
    case Woken(_, ok) => ok
    case _ => false
  }

  /** Two calls drive the transfer, and one of them is at work. */
  predicate TwoDrive(sha: Hash, s: Sender, id: int, a: int, b: int)
  {
    a != b && DrivenBy(s, a, id) && DrivenBy(s, b, id) && AtWork(sha, s.tasks[b])
  }

  /** A frame of the transfer was sequenced after its cancel. */
  predicate Escapes(n: Sender, id: int, k: nat)
  {
    id in n.cut && n.cut[id] <= k < |n.log| && Of(n.log[k], id)
  }

  // ----- No escape -----

  ghost predicate Single(s: Sender, id: int)
  {
    (forall h, k :: DrivenBy(s, h, id) && DrivenBy(s, k, id) ==> h == k)
    && (forall h :: DrivenBy(s, h, id) ==> id in s.cancelled)
  }

  /** A cancelled transfer of which nothing more can come. */
  ghost predicate Quiet(sha: Hash, s: Sender, id: int)
  {
    id in s.cut && id !in s.active
    && (Exhausted(s)
        || ((forall h :: DrivenBy(s, h, id) ==> !s.tasks[h].stage.Parked?)
            && (Single(s, id) || forall h :: DrivenBy(s, h, id) ==> !AtWork(sha, s.tasks[h]))))
  }

  /** The calls that drive `id` are where they were, and its cancel is on record as it was. */
  ghost predicate Aside(s: Sender, n: Sender, id: int)
  {
    (forall h :: DrivenBy(n, h, id) ==> DrivenBy(s, h, id) && n.tasks[h] == s.tasks[h])
    && (id in s.cancelled ==> id in n.cancelled) && id in n.cut && id !in n.active && n.sequence >= s.sequence
  }

  lemma AsideQuiet(sha: Hash, s: Sender, n: Sender, id: int)
    requires Quiet(sha, s, id) && Aside(s, n, id)
    ensures Quiet(sha, n, id)
  {
  }

  /** Frames that are not of `id` may be added. */
  predicate NothingOf(log: seq<Frame>, longer: seq<Frame>, id: int)
  {
    log <= longer && forall k :: |log| <= k < |longer| ==> !Of(longer[k], id)
  }

  lemma WokenAside(s: Sender, n: Sender, id: int, woken: map<int, Task>)
    requires Woke(s.tasks, woken) && n == s.(tasks := woken) && id in s.cut && id !in s.active
    requires forall h :: DrivenBy(s, h, id) ==> !s.tasks[h].stage.Parked?
    ensures Aside(s, n, id)
  {
  }

  lemma ChunkAside(s: Sender, h: int, next: nat, full: bool, id: int)
    requires id in s.cut && id !in s.active && h in s.tasks && s.tasks[h].transferId != id
    requires next < ChunkCount(|s.tasks[h].file.data|)
    ensures var n := ChunkStep(s, h, next, full); Aside(s, n, id) && n.cut == s.cut && NothingOf(s.log, n.log, id)
  {
  }

  /** A step of a call that drives another transfer. */
  lemma OtherTask(sha: Hash, s: Sender, e: Event, id: int)
    requires Quiet(sha, s, id) && Enabled(s, e) && (e.HashDone? || e.EncryptDone? || e.Resumes? || e.Unwinds?)
    requires !DrivenBy(s, e.task, id)
    ensures Aside(s, Next(sha, s, e), id) && Next(sha, s, e).cut == s.cut && NothingOf(s.log, Next(sha, s, e).log, id)
  {
    var h := e.task;
    if e.EncryptDone? && s.tasks[h].stage.next < ChunkCount(|s.tasks[h].file.data|) {
      ChunkAside(s, h, s.tasks[h].stage.next, e.full, id);
    }
    if e.Resumes? {
      ChunkAside(s, h, s.tasks[h].stage.next, e.full, id);
    }
  }

  /** A step of a call that drives the transfer itself. */
  lemma OwnTask(sha: Hash, s: Sender, e: Event, id: int)
    requires Quiet(sha, s, id) && Enabled(s, e) && (e.HashDone? || e.EncryptDone? || e.Resumes? || e.Unwinds?)
    requires DrivenBy(s, e.task, id)
    ensures Quiet(sha, Next(sha, s, e), id) && Next(sha, s, e).cut == s.cut && Next(sha, s, e).log == s.log
  {
    if Exhausted(s) {
      ExhaustedTask(sha, s, e, id);
    } else {
      assert DrivenBy(s, e.task, id) && (Stopped(s, id) || !AtWork(sha, s.tasks[e.task]));
      FinishQuiet(sha, s, e.task, id);
      TaskFinishes(sha, s, e, id);
      AsideQuiet(sha, Finish(s, e.task), Next(sha, s, e), id);
    }
  }

  lemma ExhaustedTask(sha: Hash, s: Sender, e: Event, id: int)
    requires Exhausted(s) && Enabled(s, e) && (e.HashDone? || e.EncryptDone? || e.Resumes? || e.Unwinds?)
    ensures var n := Next(sha, s, e);
            Exhausted(n) && n.cut == s.cut && n.log == s.log && (id !in s.active ==> id !in n.active)
  {
  }

  /** A call that is stopped or has nothing to send ends at its next step. */
  lemma TaskFinishes(sha: Hash, s: Sender, e: Event, id: int)
    requires Enabled(s, e) && (e.HashDone? || e.EncryptDone? || e.Resumes? || e.Unwinds?)
    requires DrivenBy(s, e.task, id) && (Stopped(s, id) || !AtWork(sha, s.tasks[e.task]))
    ensures Next(sha, s, e) == Finish(s, e.task).(finished := Next(sha, s, e).finished)
  {
  }

  lemma FinishQuiet(sha: Hash, s: Sender, h: int, id: int)
    requires Quiet(sha, s, id) && DrivenBy(s, h, id)
    ensures Quiet(sha, Finish(s, h), id)
  {
    var n := Finish(s, h);
    if !Exhausted(s) && Single(s, id) {
      forall k | DrivenBy(n, k, id) ensures false {
        assert DrivenBy(s, k, id) && DrivenBy(s, h, id);
      }
    }
  }

  lemma SendQuiet(sha: Hash, s: Sender, f: Frame, id: int)
    requires Quiet(sha, s, id) && !Of(f, id)
    ensures Quiet(sha, Send(s, f), id) && Send(s, f).cut == s.cut && NothingOf(s.log, Send(s, f).log, id)
  {
    AsideQuiet(sha, s, Send(s, f), id);
  }

  lemma BeginQuiet(sha: Hash, s: Sender, id: int)
    requires Ids(s) && Quiet(sha, s, id)
    ensures Quiet(sha, SenderSpec.Begin(s), id)
  {
    assert Issued(s, id);
    AsideQuiet(sha, s, SenderSpec.Begin(s), id);
  }

  lemma DriveQuiet(sha: Hash, s: Sender, h: int, other: int, file: File, id: int)
    requires Quiet(sha, s, id) && h !in s.tasks
    ensures Quiet(sha, Drive(s, h, other, file), id) && Drive(s, h, other, file).cut == s.cut && Drive(s, h, other, file).log == s.log
  {
    AsideQuiet(sha, s, Drive(s, h, other, file), id);
  }

  lemma QuietStep(sha: Hash, s: Sender, e: Event, id: int)
    requires Inv(sha, s) && Quiet(sha, s, id) && Enabled(s, e)
    ensures Quiet(sha, Next(sha, s, e), id) && id in s.cut && Next(sha, s, e).cut[id] == s.cut[id]
    ensures NothingOf(s.log, Next(sha, s, e).log, id)
  {
    match e
    case SendsText(b) => SendQuiet(sha, s, TextFrame(b), id);
    case SendsControl(subtype, b) => SendQuiet(sha, s, ControlFrame(subtype, b), id);
    case Begins => BeginQuiet(sha, s, id);
    case Drives(h, other, file) => DriveQuiet(sha, s, h, other, file, id);
    case Cancels(other) => CancelQuiet(sha, s, other, id);
    case Drains => DrainQuiet(sha, s, e, id);
    case TearsDown => DrainQuiet(sha, s, e, id);
    case _ =>
      if DrivenBy(s, e.task, id) {
        OwnTask(sha, s, e, id);
      } else {
        OtherTask(sha, s, e, id);
        AsideQuiet(sha, s, Next(sha, s, e), id);
      }
  }

  lemma WakesQuiet(sha: Hash, s: Sender, all: bool, bad: set<int>, id: int)
    requires Parking(s) && Quiet(sha, s, id)
    ensures Quiet(sha, s.(tasks := WakeAll(s.tasks, s.waiters, all, bad)), id)
  {
    WakeAllWakes(s.tasks, s.waiters, all, bad);
    if !Exhausted(s) {
      var n := s.(tasks := WakeAll(s.tasks, s.waiters, all, bad));
      WokenAside(s, n, id, n.tasks);
      AsideQuiet(sha, s, n, id);
    }
  }

  lemma DrainQuiet(sha: Hash, s: Sender, e: Event, id: int)
    requires Parking(s) && Quiet(sha, s, id) && (e.Drains? || e.TearsDown?)
    ensures Quiet(sha, Next(sha, s, e), id) && Next(sha, s, e).cut == s.cut && Next(sha, s, e).log == s.log
  {
    var all, bad := e.Drains? && !s.tearingDown, if e.Drains? then s.cancelled else {};
    WakesQuiet(sha, s, all, bad, id);
    AsideQuiet(sha, s.(tasks := WakeAll(s.tasks, s.waiters, all, bad)), Next(sha, s, e), id);
  }

  lemma CancelQuiet(sha: Hash, s: Sender, other: int, id: int)
    requires Parking(s) && Quiet(sha, s, id)
    ensures Quiet(sha, Cancel(s, other), id) && Cancel(s, other).cut[id] == s.cut[id] && NothingOf(s.log, Cancel(s, other).log, id)
  {
    if other in s.active && !Exhausted(s) {
      RejectWakes(s.tasks, s.waiters, other);
      var n := s.(tasks := Reject(s.tasks, s.waiters, other));
      WokenAside(s, n, id, n.tasks);
      AsideQuiet(sha, n, Cancel(s, other), id);
    }
  }

  lemma {:induction false} QuietRun(sha: Hash, s: Sender, es: seq<Event>, n: Sender, id: int)
    requires Inv(sha, s) && Quiet(sha, s, id) && Leads(sha, s, es, n)
    ensures Inv(sha, n) && Quiet(sha, n, id) && id in s.cut && n.cut[id] == s.cut[id] && NothingOf(s.log, n.log, id)
    decreases |es|
  {
    if es != [] {
      var last := |es| - 1;
      var r :| Leads(sha, s, es[..last], r) && Enabled(r, es[last]) && n == Next(sha, r, es[last]);
      QuietRun(sha, s, es[..last], r, id);
      QuietStep(sha, r, es[last], id);
      NextKeeps(sha, r, es[last]);
      forall k | |s.log| <= k < |n.log| ensures !Of(n.log[k], id) {
        if k < |r.log| {
          assert n.log[k] == r.log[k];
        }
      }
    }
  }

  // ----- Escape -----

  /** What a cancel does to the calls that drive the transfer: the parked ones will give up, the others stay
      where they are. */
  lemma AfterCancel(s: Sender, id: int)
    requires Parking(s) && Ids(s) && id in s.active
    ensures var c := Cancel(s, id);
            id in c.cut && c.cut[id] == |s.log| && id !in c.active && id in c.cancelled && !c.tearingDown
            && NothingOf(s.log, c.log, id) && c.tasks.Keys == s.tasks.Keys
    ensures forall h :: h in s.tasks && s.tasks[h].transferId == id ==>
              Cancel(s, id).tasks[h] == s.tasks[h].(stage := if s.tasks[h].stage.Parked? then Woken(s.tasks[h].stage.next, false)
                                                             else s.tasks[h].stage)
    ensures forall h :: h in s.tasks ==> Cancel(s, id).tasks[h].transferId == s.tasks[h].transferId
  {
    RejectWakes(s.tasks, s.waiters, id);
    forall h | DrivenBy(s, h, id) && s.tasks[h].stage.Parked?
      ensures Reject(s.tasks, s.waiters, id)[h].stage == Woken(s.tasks[h].stage.next, false)
    {
      var i :| 0 <= i < |s.waiters| && s.waiters[i] == Waiter(h, id);
      assert s.waiters[i].task == h;
    }
  }

  /** A call that drives a cancelled transfer gives up, and its cleanup forgets the cancel. */
  lemma GivesUp(sha: Hash, c: Sender, a: int, id: int) returns (e: Event)
    requires DrivenBy(c, a, id) && id in c.cancelled && InRange(c.tasks[a]) && !c.tasks[a].stage.Parked?
    ensures Enabled(c, e) && Next(sha, c, e) == Finish(c, a)
  {
    match c.tasks[a].stage
    case Hashing => e := HashDone(a, false);
    case Encrypting(_) => e := EncryptDone(a, false, false);
    case Woken(_, _) => e := Resumes(a, false);
    case Unwinding => e := Unwinds(a);
  }

  /** A call at work, whose transfer is not known to be cancelled, sends its next frame. */
  lemma GoesOn(sha: Hash, d: Sender, b: int, id: int) returns (e: Event)
    requires DrivenBy(d, b, id) && AtWork(sha, d.tasks[b]) && InRange(d.tasks[b]) && !Stopped(d, id) && !Exhausted(d)
    ensures Enabled(d, e) && |Next(sha, d, e).log| == |d.log| + 1 && Of(Next(sha, d, e).log[|d.log|], id)
    ensures Next(sha, d, e).cut == d.cut
  {
    match d.tasks[b].stage
    case Hashing => e := HashDone(b, true);
    case Encrypting(_) => e := EncryptDone(b, true, false);
    case Woken(_, _) => e := Resumes(b, false);
  }

  /** After the first call gave up, the second finds its transfer alive. */
  lemma Forgotten(c: Sender, a: int, b: int, id: int)
    requires DrivenBy(c, a, id) && DrivenBy(c, b, id) && a != b && !c.tearingDown
    ensures var d := Finish(c, a);
            DrivenBy(d, b, id) && d.tasks[b] == c.tasks[b] && !Stopped(d, id) && d.cut == c.cut && d.log == c.log && d.sequence == c.sequence
  {
  }

  lemma TwoEscape(sha: Hash, s: Sender, id: int, a: int, b: int) returns (es: seq<Event>, n: Sender)
    requires Inv(sha, s) && id in s.active && TwoDrive(sha, s, id, a, b) && !Exhausted(Cancel(s, id))
    ensures Leads(sha, Cancel(s, id), es, n) && |n.log| > 0 && Escapes(n, id, |n.log| - 1)
  {
    CancelKeeps(sha, s, id);
    AfterCancel(s, id);
    es, n := SecondGoesOn(sha, Cancel(s, id), id, a, b);
  }

  lemma SecondGoesOn(sha: Hash, c: Sender, id: int, a: int, b: int) returns (es: seq<Event>, n: Sender)
    requires TwoDrive(sha, c, id, a, b) && id in c.cancelled && id in c.cut && c.cut[id] <= |c.log|
    requires InRange(c.tasks[a]) && InRange(c.tasks[b]) && !c.tasks[a].stage.Parked? && !c.tearingDown && !Exhausted(c)
    ensures Leads(sha, c, es, n) && |n.log| > 0 && Escapes(n, id, |n.log| - 1)
  {
    var e := GivesUp(sha, c, a, id);
    var d := Next(sha, c, e);
    Forgotten(c, a, b, id);
    LeadsNext(sha, c, [], c, e);
    var f := GoesOn(sha, d, b, id);
    LeadsNext(sha, c, [] + [e], d, f);
    es, n := [] + [e] + [f], Next(sha, d, f);
  }

  ghost predicate EscapesAfter(sha: Hash, c: Sender, id: int, es: seq<Event>, n: Sender, k: nat)
  {
    Leads(sha, c, es, n) && Escapes(n, id, k)
  }

  /** Cancelling, exactly. When an active transfer is cancelled, some continuation of the run sequences a
      frame of it afterwards if and only if two calls drive it, one of them is at work, and the sequence
      space outlasts the cancel frame. */
  lemma CancelEscapesExactly(sha: Hash, es: seq<Event>, s: Sender, id: int)
    requires Reached(sha, es, s) && id in s.active
    ensures (exists fs, n, k: nat :: EscapesAfter(sha, Cancel(s, id), id, fs, n, k))
       <==> (exists a, b :: TwoDrive(sha, s, id, a, b)) && !Exhausted(Cancel(s, id))
  {
    ReachedInv(sha, es, s);
    if a, b :| TwoDrive(sha, s, id, a, b) && !Exhausted(Cancel(s, id)) {
      var fs, n := TwoEscape(sha, s, id, a, b);
      assert EscapesAfter(sha, Cancel(s, id), id, fs, n, |n.log| - 1);
    } else {
      forall fs, n, k: nat | EscapesAfter(sha, Cancel(s, id), id, fs, n, k) ensures false {
        NoEscape(sha, s, id, fs, n, k);
      }
    }
  }

  lemma NoEscape(sha: Hash, s: Sender, id: int, fs: seq<Event>, n: Sender, k: nat)
    requires Inv(sha, s) && id in s.active && (Exhausted(Cancel(s, id)) || !exists a, b :: TwoDrive(sha, s, id, a, b))
    requires Leads(sha, Cancel(s, id), fs, n)
    ensures !Escapes(n, id, k)
  {
    var c := Cancel(s, id);
    CancelKeeps(sha, s, id);
    AfterCancel(s, id);
    CancelledQuiet(sha, s, id);
    QuietRun(sha, c, fs, n, id);
    if k < |c.log| {
      assert n.log[k] == c.log[k];
    }
  }

  lemma CancelledQuiet(sha: Hash, s: Sender, id: int)
    requires Inv(sha, s) && id in s.active && (Exhausted(Cancel(s, id)) || !exists a, b :: TwoDrive(sha, s, id, a, b))
    ensures Quiet(sha, Cancel(s, id), id)
  {
    CancelKeeps(sha, s, id);
    AfterCancel(s, id);
    var c := Cancel(s, id);
    if !Exhausted(c) && !Single(c, id) {
      var a, b :| DrivenBy(c, a, id) && DrivenBy(c, b, id) && a != b;
      forall h | DrivenBy(c, h, id) ensures !AtWork(sha, c.tasks[h]) {
        assert !TwoDrive(sha, s, id, if h == a then b else a, h);
      }
    }
  }
}
