/** What a coroutine left over from an old attach can do to a new one. It can wire nothing into it
    (HandshakeRuns), but its rejection reaches `failHandshake`, which asks for no generation. */
module HandshakeIsolation {
  import opened Bytes
  import opened HandshakeCodec
  import opened HandshakeSpec
  import opened HandshakeRuns
  import Codec

  /** A rejection that arose under an earlier attach tears the present one down exactly when there is one.
      The guard on `failed` never saves it: whoever failed before left no attach behind. */
  lemma StaleRejectionTearsDown(c: Config, s: Session, h: nat)
    requires Inv(c, s) && h in s.tasks.throwing && s.tasks.throwing[h].gen < s.generation
    ensures var n := Next(c, s, Delivered(h));
            s.generation !in s.past.torn && s.generation in n.past.torn <==> !s.failed && s.transport.Some?
    ensures s.transport.Some? ==> !s.failed
  {
    Part(c, s, Attachment);
  }

  /** The steps `es` lead from `s` to `n`. */
  ghost predicate Leads(c: Config, s: Session, es: seq<Event>, n: Session)
    decreases |es|
  {
    if es == [] then n == s
    else
      var last := |es| - 1;
      exists r :: Leads(c, s, es[..last], r) && Enabled(c, r, es[last]) && n == Next(c, r, es[last])
  }

  lemma {:induction false} LeadsKeeps(c: Config, s: Session, es: seq<Event>, n: Session)
    requires ConfigOk(c) && Inv(c, s) && Leads(c, s, es, n)
    ensures Inv(c, n) && n.generation >= s.generation
    decreases |es|
  {
    if es != [] {
      var last := |es| - 1;
      var r :| Leads(c, s, es[..last], r) && Enabled(c, r, es[last]) && n == Next(c, r, es[last]);
      LeadsKeeps(c, s, es[..last], r);
      NextKeeps(c, r, es[last]);
      GenerationOnlyGrows(c, r, es[last]);
    }
  }

  /** Only an attach moves the generation on. */
  lemma GenerationOnlyGrows(c: Config, s: Session, e: Event)
    requires Enabled(c, s, e)
    ensures Next(c, s, e).generation >= s.generation
    ensures Next(c, s, e).generation > s.generation ==> e.Attaches?
  {
    match e
    case Receives(bytes, rejects) => DispatchStays(c, s, bytes, s.generation, rejects);
    case ResolveResumes(h, id, flag, rejects) =>
      var t := s.tasks.resolutions[h];
      var u := s.(authFailed := flag, tasks := s.tasks.(resolutions := s.tasks.resolutions - {h}));
      DispatchStays(c, u, t.hello, t.gen, rejects);
      ReplayStays(c, Dispatch(c, u, t.hello, t.gen, rejects), t.gen, s.aside.parked, rejects);
    case _ =>
  }

  /** Whatever is suspended or on its way to `failHandshake` arose under attach `g`. */
  predicate OnlyOf(t: Tasks, g: nat)
  {
    (forall h :: h in t.keygens ==> t.keygens[h] == g)
    && (forall h :: h in t.signs ==> t.signs[h].gen == g)
    && (forall h :: h in t.completions ==> t.completions[h].gen == g)
    && (forall h :: h in t.resolutions ==> t.resolutions[h].gen == g)
    && (forall h :: h in t.throwing ==> t.throwing[h].gen == g)
  }

  predicate NothingPending(t: Tasks)
  {
    t.keygens == map[] && t.signs == map[] && t.completions == map[] && t.resolutions == map[] && t.throwing == map[]
  }

  /** A new attach begins with its own coroutines only exactly when nothing was in flight before it. */
  lemma AttachesAlone(c: Config, s: Session, transport: int)
    requires Inv(c, s) && Attach(c, s, transport) != s
    ensures var n := Attach(c, s, transport); OnlyOf(n.tasks, n.generation) <==> NothingPending(s.tasks)
  {
    GensOld(c, s);
    Part(c, s, Attachment);
    var n := Attach(c, s, transport);
    assert forall h :: h in s.tasks.keygens ==> h in n.tasks.keygens && n.tasks.keygens[h] == s.tasks.keygens[h];
  }

  lemma ThrowAlone(s: Session, g: nat, authFailure: bool)
    requires OnlyOf(s.tasks, g)
    ensures OnlyOf(Throw(s, g, authFailure).tasks, g)
  {
  }

  lemma FewerAlone(t: Tasks, u: Tasks, g: nat)
    requires OnlyOf(t, g)
    requires forall h :: h in u.keygens ==> h in t.keygens && u.keygens[h] == t.keygens[h]
    requires forall h :: h in u.signs ==> h in t.signs && u.signs[h] == t.signs[h]
    requires forall h :: h in u.completions ==> h in t.completions && u.completions[h].gen == t.completions[h].gen
    requires forall h :: h in u.resolutions ==> h in t.resolutions && u.resolutions[h].gen == t.resolutions[h].gen
    requires forall h :: h in u.throwing ==> h in t.throwing && u.throwing[h] == t.throwing[h]
    ensures OnlyOf(u, g)
  {
  }

  lemma MaybeSignAlone(c: Config, s: Session)
    requires OnlyOf(s.tasks, s.generation)
    ensures OnlyOf(MaybeSign(c, s).tasks, s.generation)
  {
    ThrowAlone(s, s.generation, false);
  }

  lemma VerifyPeerAlone(s: Session, signature: Bytes)
    requires OnlyOf(s.tasks, s.generation)
    ensures OnlyOf(VerifyPeer(s, signature).tasks, s.generation)
  {
    ThrowAlone(Latched(s), s.generation, false);
  }

  lemma DispatchAlone(c: Config, s: Session, bytes: Bytes, gen: nat, rejects: Bytes -> bool)
    requires OnlyOf(s.tasks, s.generation) && gen == s.generation
    ensures OnlyOf(Dispatch(c, s, bytes, gen, rejects).tasks, s.generation)
  {
    ThrowAlone(s, gen, false);
    ThrowAlone(s, gen, true);
    if |bytes| == HELLO_BYTES {
      var hello := DecodeHello(c.onCurve, bytes);
      if hello.Ok? {
        MaybeSignAlone(c, AcceptHello(s, gen, hello.value));
      }
    } else if |bytes| == SIGNATURE_MESSAGE_BYTES {
      VerifyPeerAlone(s, bytes[1..]);
    }
  }

  lemma InboundAlone(c: Config, s: Session, bytes: Bytes, rejects: Bytes -> bool)
    requires OnlyOf(s.tasks, s.generation)
    ensures OnlyOf(Inbound(c, s, bytes, rejects).tasks, s.generation)
  {
    ThrowAlone(s, s.generation, false);
    DispatchAlone(c, s, bytes, s.generation, rejects);
    StartResolvingAlone(c, s, bytes);
  }

  lemma StartResolvingAlone(c: Config, s: Session, bytes: Bytes)
    requires OnlyOf(s.tasks, s.generation)
    ensures OnlyOf(StartResolving(c, s, bytes).tasks, s.generation)
  {
    ThrowAlone(s, s.generation, false);
  }

  lemma {:induction false} ReplayAlone(c: Config, s: Session, gen: nat, messages: seq<Bytes>, rejects: Bytes -> bool)
    requires OnlyOf(s.tasks, s.generation)
    ensures OnlyOf(Replay(c, s, gen, messages, rejects).tasks, s.generation)
    decreases |messages|
  {
    if messages != [] && gen == s.generation && s.transport.Some? {
      DispatchAlone(c, s, messages[0], gen, rejects);
      DispatchStays(c, s, messages[0], gen, rejects);
      ReplayAlone(c, Dispatch(c, s, messages[0], gen, rejects), gen, messages[1..], rejects);
    }
  }

  lemma ReleaseAlone(c: Config, s: Session, h: nat, t: Resolution, rejects: Bytes -> bool)
    requires OnlyOf(s.tasks, s.generation) && t.gen == s.generation
    ensures OnlyOf(Release(c, s, h, t, rejects).tasks, s.generation)
  {
    DispatchAlone(c, s, t.hello, t.gen, rejects);
    DispatchStays(c, s, t.hello, t.gen, rejects);
    var d := Dispatch(c, s, t.hello, t.gen, rejects);
    ReplayAlone(c, d, t.gen, s.aside.parked, rejects);
    var r := Replay(c, d, t.gen, s.aside.parked, rejects);
    FewerAlone(r.tasks, r.tasks.(resolutions := r.tasks.resolutions - {h}), s.generation);
  }

  lemma ResolveAlone(c: Config, s: Session, h: nat, id: Bytes, flag: bool, rejects: Bytes -> bool)
    requires OnlyOf(s.tasks, s.generation) && h in s.tasks.resolutions
    ensures OnlyOf(ResolveStep(c, s, h, id, flag, rejects).tasks, s.generation)
  {
    var t := s.tasks.resolutions[h];
    var fewer := s.tasks.(resolutions := s.tasks.resolutions - {h});
    FewerAlone(s.tasks, fewer, s.generation);
    if s.transport.Some? && t.round > 1 {
      ReleaseAlone(c, s.(authFailed := flag, tasks := fewer), h, t, rejects);
    } else {
      FewerAlone(s.tasks, s.tasks.(resolutions := s.tasks.resolutions[h := t.(round := t.round + 1)]), s.generation);
    }
  }

  lemma BailAlone(s: Session, h: nat)
    requires OnlyOf(s.tasks, s.generation)
    ensures OnlyOf(Bail(s, h).tasks, s.generation)
  {
    FewerAlone(s.tasks, Bail(s, h).tasks, s.generation);
  }

  lemma DeriveAlone(c: Config, s: Session, h: nat, known: bool, secret: Option<Bytes>)
    requires OnlyOf(s.tasks, s.generation) && Completes(s, h) && !Superseded(s, s.tasks.completions[h].gen)
    ensures OnlyOf(Derive(c, s, h, known, secret).tasks, s.generation)
  {
    BailAlone(s, h);
    ThrowAlone(Bail(s, h), s.generation, false);
  }

  /** The store's answer moves a call on, under the attach it was started under. */
  lemma MovedAlone(s: Session, h: nat, gen: nat, existing: Option<Bytes>)
    requires OnlyOf(s.tasks, s.generation) && Completes(s, h)
    ensures OnlyOf(At(Noted(s, gen, existing), h, Exchanging(existing.Some?)).tasks, s.generation)
  {
    FewerAlone(s.tasks, At(Noted(s, gen, existing), h, Exchanging(existing.Some?)).tasks, s.generation);
  }

  lemma LookupAlone(c: Config, s: Session, h: nat, existing: Option<Bytes>)
    requires OnlyOf(s.tasks, s.generation) && Completes(s, h) && s.tasks.completions[h].stage.LookingUp?
    ensures OnlyOf(LookupDone(c, s, h, existing).tasks, s.generation)
  {
    var t := s.tasks.completions[h];
    BailAlone(s, h);
    if !Superseded(s, t.gen) {
      ThrowAlone(Noted(Bail(s, h), t.gen, existing), s.generation, true);
      MovedAlone(s, h, t.gen, existing);
      if c.authMode != Codec.PAKE {
        DeriveAlone(c, At(Noted(s, t.gen, existing), h, Exchanging(existing.Some?)), h, existing.Some?, None);
      }
    }
  }

  lemma ExchangeAlone(c: Config, s: Session, h: nat, secret: Option<Bytes>)
    requires OnlyOf(s.tasks, s.generation) && Completes(s, h) && s.tasks.completions[h].stage.Exchanging?
    ensures OnlyOf(ExchangeStep(c, s, h, secret).tasks, s.generation)
  {
    BailAlone(s, h);
    if !Superseded(s, s.tasks.completions[h].gen) {
      DeriveAlone(c, s, h, s.tasks.completions[h].stage.known, secret);
    }
  }

  lemma CompletionAlone(c: Config, s: Session, e: Event)
    requires OnlyOf(s.tasks, s.generation) && Enabled(c, s, e)
    requires e.VerifyResumes? || e.DeriveResumes? || e.NumberResumes? || e.StoreResumes?
    ensures OnlyOf(Next(c, s, e).tasks, s.generation)
  {
    BailAlone(s, e.task);
    ThrowAlone(Bail(s, e.task), s.generation, false);
  }

  lemma RejectsAlone(c: Config, s: Session, e: Event)
    requires OnlyOf(s.tasks, s.generation) && Enabled(c, s, e)
    requires e.KeygenRejects? || e.SignRejects? || e.CompletionRejects? || e.ResolutionRejects?
    ensures OnlyOf(Next(c, s, e).tasks, s.generation)
  {
    var h := e.task;
    match e
    case KeygenRejects(_) =>
      FewerAlone(s.tasks, s.tasks.(keygens := s.tasks.keygens - {h}), s.generation);
      ThrowAlone(s.(tasks := s.tasks.(keygens := s.tasks.keygens - {h})), s.generation, false);
    case SignRejects(_) =>
      FewerAlone(s.tasks, s.tasks.(signs := s.tasks.signs - {h}), s.generation);
      ThrowAlone(s.(tasks := s.tasks.(signs := s.tasks.signs - {h})), s.generation, false);
    case CompletionRejects(_, authFailure) =>
      BailAlone(s, h);
      ThrowAlone(Bail(s, h), s.generation, authFailure);
    case ResolutionRejects(_) =>
      FewerAlone(s.tasks, s.tasks.(resolutions := s.tasks.resolutions - {h}), s.generation);
      ThrowAlone(Resolved(s, h, s.generation), s.generation, false);
  }

  /** While an attach lasts, only its own coroutines start. */
  lemma StaysAlone(c: Config, s: Session, e: Event)
    requires OnlyOf(s.tasks, s.generation) && Enabled(c, s, e) && Next(c, s, e).generation == s.generation
    ensures OnlyOf(Next(c, s, e).tasks, s.generation)
  {
    match e
    case KeygenResumes(h, private, sessionId) =>
      var ended := s.(tasks := s.tasks.(keygens := s.tasks.keygens - {h}));
      FewerAlone(s.tasks, ended.tasks, s.generation);
      MaybeSignAlone(c, Introduced(c, ended, private, sessionId));
    case SignResumes(h) => FewerAlone(s.tasks, s.tasks.(signs := s.tasks.signs - {h}), s.generation);
    case Receives(bytes, rejects) => InboundAlone(c, s, bytes, rejects);
    case ResolveResumes(h, id, flag, rejects) => ResolveAlone(c, s, h, id, flag, rejects);
    case Delivered(h) => FewerAlone(s.tasks, s.tasks.(throwing := s.tasks.throwing - {h}), s.generation);
    case LookupResumes(h, existing) => LookupAlone(c, s, h, existing);
    case ExchangeResumes(h, secret) => ExchangeAlone(c, s, h, secret);
    case PeerJoins =>
    case Attaches(_) =>
    case TimesOut =>
    case Drops =>
    case Retries =>
    case _ =>
      if e.KeygenRejects? || e.SignRejects? || e.CompletionRejects? || e.ResolutionRejects? {
        RejectsAlone(c, s, e);
      } else {
        CompletionAlone(c, s, e);
      }
  }

  lemma {:induction false} RunStaysAlone(c: Config, s: Session, es: seq<Event>, n: Session)
    requires ConfigOk(c) && Inv(c, s) && OnlyOf(s.tasks, s.generation) && Leads(c, s, es, n) && n.generation == s.generation
    ensures OnlyOf(n.tasks, n.generation)
    decreases |es|
  {
    if es != [] {
      var last := |es| - 1;
      var r :| Leads(c, s, es[..last], r) && Enabled(c, r, es[last]) && n == Next(c, r, es[last]);
      LeadsKeeps(c, s, es[..last], r);
      GenerationOnlyGrows(c, r, es[last]);
      RunStaysAlone(c, s, es[..last], r);
      StaysAlone(c, r, es[last]);
    }
  }

  /** What can end a live attach at all: a rejection, the timer, or a drop. */
  lemma TornDownBy(c: Config, s: Session, e: Event)
    requires Enabled(c, s, e) && s.transport.Some? && Next(c, s, e).transport.None?
    ensures e.Delivered? || e.TimesOut? || e.Drops?
  {
    match e
    case Receives(bytes, rejects) => DispatchStays(c, s, bytes, s.generation, rejects);
    case ResolveResumes(h, id, flag, rejects) =>
      var t := s.tasks.resolutions[h];
      var u := s.(authFailed := flag, tasks := s.tasks.(resolutions := s.tasks.resolutions - {h}));
      DispatchStays(c, u, t.hello, t.gen, rejects);
      ReplayStays(c, Dispatch(c, u, t.hello, t.gen, rejects), t.gen, s.aside.parked, rejects);
    case _ =>
  }

  /** Isolation, where it holds. An attach that began with nothing in flight is torn down only by a
      rejection of its own (of one of its coroutines, or of bytes received under it), by its timer, or by
      a drop. */
  lemma TornDownByItsOwn(c: Config, r: Session, transport: int, es: seq<Event>, n: Session, e: Event)
    requires ConfigOk(c) && Inv(c, r) && Attach(c, r, transport) != r && NothingPending(r.tasks)
    requires var s := Attach(c, r, transport); Leads(c, s, es, n) && n.generation == s.generation
    requires n.transport.Some? && Enabled(c, n, e) && Next(c, n, e).transport.None?
    ensures e.TimesOut? || e.Drops? || (e.Delivered? && n.tasks.throwing[e.task].gen == r.generation + 1)
  {
    var s := Attach(c, r, transport);
    AttachKeeps(c, r, transport);
    AttachesAlone(c, r, transport);
    RunStaysAlone(c, s, es, n);
    TornDownBy(c, n, e);
  }

  /** A run from `s` ends with the attach of `s` still live and a rejection of another attach on its way,
      which is about to tear it down. */
  ghost predicate Endangered(c: Config, s: Session, es: seq<Event>, n: Session, h: nat)
  {
    Leads(c, s, es, n) && n.generation == s.generation && n.transport.Some?
    && h in n.tasks.throwing && n.tasks.throwing[h].gen != n.generation
  }

  lemma OneStep(c: Config, s: Session, e: Event)
    requires Enabled(c, s, e)
    ensures Leads(c, s, [e], Next(c, s, e))
  {
    var es: seq<Event> := [];
    assert (es + [e])[..|es|] == es && es + [e] == [e];
    assert Leads(c, s, (es + [e])[..|es|], s);
  }

  /** Isolation exactly. A live attach is safe from rejections of other attaches, whatever happens, if and
      only if all that is in flight is its own. */
  lemma IsolatedExactly(c: Config, s: Session)
    requires ConfigOk(c) && Inv(c, s) && s.transport.Some?
    ensures OnlyOf(s.tasks, s.generation) <==> !exists es, n, h :: Endangered(c, s, es, n, h)
  {
    if OnlyOf(s.tasks, s.generation) {
      forall es, n, h | Endangered(c, s, es, n, h) ensures false {
        RunStaysAlone(c, s, es, n);
      }
    } else {
      var es, n, h := Danger(c, s);
    }
  }

  /** The task of a rejection about to arise, and the attach it was started under. */
  predicate Rejects(s: Session, e: Event, gen: nat)
  {
    match e
    case KeygenRejects(h) => h in s.tasks.keygens && s.tasks.keygens[h] == gen
    case SignRejects(h) => h in s.tasks.signs && s.tasks.signs[h].gen == gen
    case CompletionRejects(h, _) => h in s.tasks.completions && s.tasks.completions[h].gen == gen
    case ResolutionRejects(h) => h in s.tasks.resolutions && s.tasks.resolutions[h].gen == gen
    case _ => false
  }

  lemma RejectionEndangers(c: Config, s: Session, e: Event, gen: nat)
    requires s.transport.Some? && Rejects(s, e, gen) && gen != s.generation
    ensures Endangered(c, s, [e], Next(c, s, e), s.tasks.next)
  {
    OneStep(c, s, e);
  }

  lemma Danger(c: Config, s: Session) returns (es: seq<Event>, n: Session, h: nat)
    requires s.transport.Some? && !OnlyOf(s.tasks, s.generation)
    ensures Endangered(c, s, es, n, h)
  {
    if k :| k in s.tasks.throwing && s.tasks.throwing[k].gen != s.generation {
      return [], s, k;
    }
    var e, gen := Pending(s);
    RejectionEndangers(c, s, e, gen);
    return [e], Next(c, s, e), s.tasks.next;
  }

  lemma Pending(s: Session) returns (e: Event, gen: nat)
    requires !OnlyOf(s.tasks, s.generation) && forall k :: k in s.tasks.throwing ==> s.tasks.throwing[k].gen == s.generation
    ensures Rejects(s, e, gen) && gen != s.generation
  {
    if k :| k in s.tasks.keygens && s.tasks.keygens[k] != s.generation {
      return KeygenRejects(k), s.tasks.keygens[k];
    }
    if k :| k in s.tasks.signs && s.tasks.signs[k].gen != s.generation {
      return SignRejects(k), s.tasks.signs[k].gen;
    }
    if k :| k in s.tasks.completions && s.tasks.completions[k].gen != s.generation {
      return CompletionRejects(k, false), s.tasks.completions[k].gen;
    }
    var k :| k in s.tasks.resolutions && s.tasks.resolutions[k].gen != s.generation;
    return ResolutionRejects(k), s.tasks.resolutions[k].gen;
  }

  /** Such a run from the start: the first attach's key generation fails after a drop, a retry and a
      second attach, and the second attach is torn down. */
  lemma StaleFailureReachesFresh(c: Config, id: Bytes) returns (es: seq<Event>, s: Session)
    requires StartOk(c, Some(id))
    ensures Reached(c, Some(id), es, s) && s.generation == 2 && 2 in s.past.torn && s.phase == Disconnected
  {
    var r, rs := Retried(c, id);
    var n := Next(c, r, Attaches(2));
    ReachedNext(c, Some(id), rs, r, Attaches(2));
    es := rs + [Attaches(2)];
    s := FailsUnderNext(c, id, es, n, 0);
    es := es + [KeygenRejects(0)] + [Delivered(n.tasks.next)];
  }

  lemma Retried(c: Config, id: Bytes) returns (s: Session, es: seq<Event>)
    requires StartOk(c, Some(id))
    ensures Reached(c, Some(id), es, s) && s.phase == Signaling && s.generation == 1 && s.conversation.Some?
    ensures s.tasks == Tasks(map[0 := 1], map[], map[], map[], map[], 1)
  {
    var e1, e2, e3 := Attaches(1), Drops, Retries;
    var s0 := Started(Some(id));
    var s1 := Next(c, s0, e1);
    ReachedNext(c, Some(id), [], s0, e1);
    var s2 := Next(c, s1, e2);
    ReachedNext(c, Some(id), [] + [e1], s1, e2);
    s := Next(c, s2, e3);
    ReachedNext(c, Some(id), [] + [e1] + [e2], s2, e3);
    es := [] + [e1] + [e2] + [e3];
  }

  lemma FailsUnderNext(c: Config, id: Bytes, es: seq<Event>, r: Session, h: nat) returns (s: Session)
    requires Reached(c, Some(id), es, r) && h in r.tasks.keygens && !r.failed && Running(r.phase)
    ensures Reached(c, Some(id), es + [KeygenRejects(h)] + [Delivered(r.tasks.next)], s)
    ensures s.generation == r.generation && r.generation in s.past.torn && s.phase == Disconnected
  {
    var n := Next(c, r, KeygenRejects(h));
    ReachedNext(c, Some(id), es, r, KeygenRejects(h));
    s := Next(c, n, Delivered(r.tasks.next));
    ReachedNext(c, Some(id), es + [KeygenRejects(h)], n, Delivered(r.tasks.next));
  }
}
