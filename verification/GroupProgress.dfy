/** That lists get through (`group/group-session.ts`): a mutation of the author ends in a signed list, and
    a member takes every list its gates let in. Together with GroupSpec, which says what may never be
    adopted, this fixes where a member stands. */
module GroupProgress {
  import opened Bytes
  import opened Membership
  import opened GroupSpec
  import opened LinkSpec

  // ----- One step -----

  /** A verified list is taken, as it is and by whoever is pinned or unpinned, exactly when the member is
      open, the list's epoch is higher, and its author is the pinned one or none is pinned. Nothing else
      of the member moves, and it closes exactly when the list drops it. */
  lemma AdoptsExactly(self: Bytes, c: Core, m: Membership)
    requires CoreInv(c) && Authors(m.members) == 1
    ensures var d := Deliver(self, c, m);
            (d.adopted != c.adopted <==> !c.closed && m.epoch > c.epoch && (c.pinned.None? || c.pinned.value == AuthorKey(m.members)))
            && (d.adopted != c.adopted ==>
                  d.epoch == m.epoch && d.members == m.members && d.pinned == Some(AuthorKey(m.members))
                  && d.adopted == c.adopted + [Listing(m.epoch, m.members)]
                  && (d.closed <==> self in Keys(c.members) && self !in Keys(m.members)))
            && (d.adopted == c.adopted ==> d == c)
  {
    assert |c.adopted + [Listing(m.epoch, m.members)]| != |c.adopted|;
  }

  // ----- The author's mutations -----

  /** The list `next` is signed and is the author's list of the next epoch. */
  predicate SignedNext(v: AuthorView, u: AuthorView, next: seq<Member>)
  {
    u.history == v.history + [next] && u.signed == v.signed + [Listing(|v.history| + 1, next)] && u.signing.None?
  }

  predicate Ready(g: Group, v: AuthorView, c: Change)
  {
    v.history != [] && v.signing.None? && |v.history| < UINT32_MAX && Admissible(g.p, g.self, c)
  }

  function Carried(g: Group, v: AuthorView, c: Change): AuthorView
    requires v.history != [] && v.signing.None? && Admissible(g.p, g.self, c)
  {
    var u := AuthorNext(g, v, Begin(c));
    if u.signing.None? then u else AuthorNext(g, u, Commit(true))
  }

  /** A mutation that has something to do is carried to the end of the history. */
  lemma MutationSigned(g: Group, v: AuthorView, c: Change)
    requires Ready(g, v, c)
    ensures var now := v.history[|v.history| - 1];
            if Idle(now, g.cap, c) then Carried(g, v, c) == v
            else Carried(g, v, c) == v.(history := v.history + [Changed(now, c)], signing := None,
                                        signed := v.signed + [Listing(|v.history| + 1, Changed(now, c))])
  {
  }

  lemma KickedList(now: seq<Member>, key: Bytes, cap: int)
    ensures Idle(now, cap, Kick(key)) <==> !exists i :: 0 <= i < |now| && now[i].identityPub == key
    ensures forall m :: m in Changed(now, Kick(key)) <==> m in now && m.identityPub != key
  {
    MinusIs(now, {key});
    if i :| 0 <= i < |now| && now[i].identityPub == key {
      assert now[i] in now;
    }
  }

  /** A newcomer is signed into the next list, at its end, exactly when it is not on the list and the list
      has a seat. */
  lemma JoinSigned(g: Group, v: AuthorView, m: Member)
    requires Ready(g, v, Join(m))
    ensures var now := v.history[|v.history| - 1];
            if (forall i :: 0 <= i < |now| ==> now[i].identityPub != m.identityPub) && |now| < g.cap
            then SignedNext(v, Carried(g, v, Join(m)), now + [m]) else Carried(g, v, Join(m)) == v
  {
    MutationSigned(g, v, Join(m));
  }

  /** A kicked member is on no later entry, and nobody else goes, exactly when it was on the list. */
  lemma KickSigned(g: Group, v: AuthorView, key: Bytes)
    requires Ready(g, v, Kick(key))
    ensures var now := v.history[|v.history| - 1]; var u := Carried(g, v, Kick(key));
            if exists i :: 0 <= i < |now| && now[i].identityPub == key
            then u.history != [] && SignedNext(v, u, u.history[|u.history| - 1])
                 && (forall m :: m in u.history[|u.history| - 1] <==> m in now && m.identityPub != key)
            else u == v
  {
    MutationSigned(g, v, Kick(key));
    KickedList(v.history[|v.history| - 1], key, g.cap);
  }

  /** A rename is signed exactly when it changes an entry; it changes that name and nothing else. */
  lemma RenameSigned(g: Group, v: AuthorView, key: Bytes, name: Bytes)
    requires Ready(g, v, Rename(key, name))
    ensures var now := v.history[|v.history| - 1]; var u := Carried(g, v, Rename(key, name));
            if exists i :: 0 <= i < |now| && now[i].identityPub == key && now[i].displayName != name
            then u.history != [] && SignedNext(v, u, u.history[|u.history| - 1]) && |u.history[|u.history| - 1]| == |now|
                 && (forall i :: 0 <= i < |now| ==>
                       u.history[|u.history| - 1][i]
                         == Member(now[i].identityPub, now[i].isAuthor, if now[i].identityPub == key then name else now[i].displayName))
            else u == v
  {
    MutationSigned(g, v, Rename(key, name));
  }

  // ----- Runs: the newest list wins -----

  /** A list by the honest author arrives at member `i`. */
  predicate Brings(g: Group, e: Event, i: nat)
  {
    e.Arrives? && e.who == i && Authors(e.list.members) == 1 && AuthorKey(e.list.members) == g.self
  }

  function Shown(c: Core): Listing
  {
    Listing(c.epoch, c.members)
  }

  function Told(e: Event): Listing
    requires e.Arrives?
  {
    Listing(e.list.epoch, e.list.members)
  }

  ghost predicate Brought(g: Group, es: seq<Event>, i: nat, l: Listing)
  {
    exists k :: 0 <= k < |es| && Brings(g, es[k], i) && Told(es[k]) == l
  }

  /** Every list of the honest author that arrived at `i` was signed, and is not newer than what it holds. */
  ghost predicate NoneNewer(g: Group, z: World, es: seq<Event>, i: nat)
    requires i < |z.members|
  {
    forall k :: 0 <= k < |es| && Brings(g, es[k], i) ==> es[k].list.epoch <= z.members[i].epoch && Told(es[k]) in z.author.signed
  }

  lemma {:induction false} SignedGrows(g: Group, verify: Verify, w: World, es: seq<Event>)
    requires WorldInv(g, w) && Trace(g, verify, w, es)
    ensures w.author.signed <= After(g, verify, w, es).author.signed
    decreases |es|
  {
    if es != [] {
      if es[0].AtAuthor? {
        AuthorNextKeeps(g, w.author, es[0].event);
      }
      StepKeeps(g, verify, w, es[0]);
      SignedGrows(g, verify, Step(g, verify, w, es[0]), es[1..]);
    }
  }

  /** One step of a run after which the member is open and, if pinned, pinned to the honest author. */
  lemma StepTakes(g: Group, verify: Verify, w: World, e: Event, i: nat)
    requires WorldInv(g, w) && Possible(g, verify, w, e) && i < |w.members|
    requires var d := Step(g, verify, w, e).members[i]; !d.closed && (d.pinned.Some? ==> d.pinned.value == g.self)
    ensures var c, d := w.members[i], Step(g, verify, w, e).members[i];
            c.epoch <= d.epoch
            && (Brings(g, e, i) ==> e.list.epoch <= d.epoch && Told(e) in w.author.signed)
            && (Shown(d) == Shown(c) || (Brings(g, e, i) && Told(e) == Shown(d)))
  {
    assert Follows(g, w.author.signed, w.members[i]);
    if Brings(g, e, i) {
      AdoptsSigned(g, w.author, e.list);
    }
  }

  lemma {:induction false} NewestFrom(g: Group, verify: Verify, w: World, es: seq<Event>, i: nat)
    requires WorldInv(g, w) && Trace(g, verify, w, es) && i < |w.members|
    requires |After(g, verify, w, es).members| == |w.members|
    requires var d := After(g, verify, w, es).members[i]; !d.closed && d.pinned == Some(g.self)
    ensures var z := After(g, verify, w, es);
            w.members[i].epoch <= z.members[i].epoch && NoneNewer(g, z, es, i)
            && (Shown(z.members[i]) == Shown(w.members[i]) || Brought(g, es, i, Shown(z.members[i])))
    decreases |es|
  {
    if es != [] {
      var n, z, rest := Step(g, verify, w, es[0]), After(g, verify, w, es), es[1..];
      StepKeeps(g, verify, w, es[0]);
      RunKeeps(g, verify, n, rest);
      assert Later(n.members[i], z.members[i]);
      StepTakes(g, verify, w, es[0], i);
      SignedGrows(g, verify, w, es);
      NewestFrom(g, verify, n, rest, i);
      MoreBrought(g, w.members[i], n.members[i], z, es, i);
    }
  }

  lemma MoreBrought(g: Group, c: Core, d: Core, z: World, es: seq<Event>, i: nat)
    requires es != [] && i < |z.members| && NoneNewer(g, z, es[1..], i)
    requires Brings(g, es[0], i) ==> es[0].list.epoch <= z.members[i].epoch && Told(es[0]) in z.author.signed
    requires Shown(d) == Shown(c) || (Brings(g, es[0], i) && Told(es[0]) == Shown(d))
    requires Shown(z.members[i]) == Shown(d) || Brought(g, es[1..], i, Shown(z.members[i]))
    ensures NoneNewer(g, z, es, i)
    ensures Shown(z.members[i]) == Shown(c) || Brought(g, es, i, Shown(z.members[i]))
  {
    var rest := es[1..];
    forall k | 0 <= k < |es| && Brings(g, es[k], i)
      ensures es[k].list.epoch <= z.members[i].epoch && Told(es[k]) in z.author.signed
    {
      assert k > 0 ==> rest[k - 1] == es[k];
    }
    if Brought(g, rest, i, Shown(z.members[i])) {
      var k :| 0 <= k < |rest| && Brings(g, rest[k], i) && Told(rest[k]) == Shown(z.members[i]);
      assert es[k + 1] == rest[k];
    }
  }

  /** Newest list wins, over any run and any network: a member that is open and pinned to the honest
      author stands at the highest epoch among that author's lists that arrived, and holds the list that
      arrived with it, in whatever order and however often they came. */
  lemma NewestWins(g: Group, verify: Verify, name: Bytes, n: nat, es: seq<Event>, i: nat)
    requires GroupOk(g) && |name| <= MAX_MEMBER_DISPLAY_NAME && i < n
    requires Trace(g, verify, Start(g, name, n), es) && |After(g, verify, Start(g, name, n), es).members| == n
    requires var c := After(g, verify, Start(g, name, n), es).members[i]; !c.closed && c.pinned == Some(g.self)
    ensures var c := After(g, verify, Start(g, name, n), es).members[i];
            (exists k :: 0 <= k < |es| && Brings(g, es[k], i) && es[k].list.epoch == c.epoch && es[k].list.members == c.members)
            && forall k :: 0 <= k < |es| && Brings(g, es[k], i) ==>
                 es[k].list.epoch <= c.epoch && (es[k].list.epoch == c.epoch ==> es[k].list.members == c.members)
  {
    var w := Start(g, name, n);
    FoundedKeeps(g, name);
    assert WorldInv(g, w);
    RunKeeps(g, verify, w, es);
    NewestFrom(g, verify, w, es, i);
    Newest(g, After(g, verify, w, es), es, i);
  }

  lemma SignedHeld(g: Group, v: AuthorView)
    requires AuthorInv(g, v)
    ensures forall l :: l in v.signed ==> Held(v.history, l)
  {
  }

  lemma Newest(g: Group, z: World, es: seq<Event>, i: nat)
    requires WorldInv(g, z) && i < |z.members| && z.members[i].pinned == Some(g.self) && NoneNewer(g, z, es, i)
    requires Shown(z.members[i]) == Listing(0, []) || Brought(g, es, i, Shown(z.members[i]))
    ensures var c := z.members[i];
            (exists k :: 0 <= k < |es| && Brings(g, es[k], i) && es[k].list.epoch == c.epoch && es[k].list.members == c.members)
            && forall k :: 0 <= k < |es| && Brings(g, es[k], i) ==>
                 es[k].list.epoch <= c.epoch && (es[k].list.epoch == c.epoch ==> es[k].list.members == c.members)
  {
    HoldsHistory(g, z, i);
    SignedHeld(g, z.author);
    NewestOf(g, z.author, z.members[i], es, i);
  }

  /** The same of the author's history alone. */
  lemma NewestOf(g: Group, v: AuthorView, c: Core, es: seq<Event>, i: nat)
    requires Held(v.history, Shown(c)) && forall l :: l in v.signed ==> Held(v.history, l)
    requires forall k :: 0 <= k < |es| && Brings(g, es[k], i) ==> es[k].list.epoch <= c.epoch && Told(es[k]) in v.signed
    requires Shown(c) == Listing(0, []) || Brought(g, es, i, Shown(c))
    ensures exists k :: 0 <= k < |es| && Brings(g, es[k], i) && es[k].list.epoch == c.epoch && es[k].list.members == c.members
    ensures forall k :: 0 <= k < |es| && Brings(g, es[k], i) ==>
              es[k].list.epoch <= c.epoch && (es[k].list.epoch == c.epoch ==> es[k].list.members == c.members)
  {
    var k :| 0 <= k < |es| && Brings(g, es[k], i) && Told(es[k]) == Shown(c);
    assert Brings(g, es[k], i) && es[k].list.epoch == c.epoch && es[k].list.members == c.members;
    forall k | 0 <= k < |es| && Brings(g, es[k], i) && es[k].list.epoch == c.epoch ensures es[k].list.members == c.members {
      assert Held(v.history, Told(es[k]));
    }
  }

  /** The author of the first list above epoch zero that arrives at member `i`. */
  function FirstAuthor(es: seq<Event>, i: nat): Option<Bytes>
  {
    if es == [] then None
    else if es[0].Arrives? && es[0].who == i && Authors(es[0].list.members) == 1 && es[0].list.epoch > 0
    then Some(AuthorKey(es[0].list.members))
    else FirstAuthor(es[1..], i)
  }

  lemma {:induction false} PinnedFrom(g: Group, verify: Verify, w: World, es: seq<Event>, i: nat)
    requires WorldInv(g, w) && Trace(g, verify, w, es) && i < |w.members|
    requires |After(g, verify, w, es).members| == |w.members| && !After(g, verify, w, es).members[i].closed
    ensures After(g, verify, w, es).members[i].pinned
         == if w.members[i].pinned.Some? then w.members[i].pinned else FirstAuthor(es, i)
    decreases |es|
  {
    if es != [] {
      var n := Step(g, verify, w, es[0]);
      assert Follows(g, w.author.signed, w.members[i]);
      StepKeeps(g, verify, w, es[0]);
      RunKeeps(g, verify, n, es[1..]);
      assert Later(n.members[i], After(g, verify, w, es).members[i]);
      PinnedFrom(g, verify, n, es[1..], i);
    }
  }

  /** Trust on first use, over any run: a member that is open is pinned to the author of the first list
      that arrived at it, and to nobody exactly when none did. */
  lemma PinnedToFirst(g: Group, verify: Verify, name: Bytes, n: nat, es: seq<Event>, i: nat)
    requires GroupOk(g) && |name| <= MAX_MEMBER_DISPLAY_NAME && i < n
    requires Trace(g, verify, Start(g, name, n), es) && |After(g, verify, Start(g, name, n), es).members| == n
    requires !After(g, verify, Start(g, name, n), es).members[i].closed
    ensures After(g, verify, Start(g, name, n), es).members[i].pinned == FirstAuthor(es, i)
  {
    FoundedKeeps(g, name);
    assert WorldInv(g, Start(g, name, n));
    PinnedFrom(g, verify, Start(g, name, n), es, i);
  }

  /** Convergence: once the newest list the honest author has signed arrived at an open member whose first
      list came from that author, the member holds exactly that list. */
  lemma CatchesUp(g: Group, verify: Verify, name: Bytes, n: nat, es: seq<Event>, i: nat, k: nat)
    requires GroupOk(g) && |name| <= MAX_MEMBER_DISPLAY_NAME && i < n
    requires Trace(g, verify, Start(g, name, n), es) && |After(g, verify, Start(g, name, n), es).members| == n
    requires !After(g, verify, Start(g, name, n), es).members[i].closed && FirstAuthor(es, i) == Some(g.self)
    requires k < |es| && Brings(g, es[k], i)
    requires forall l :: l in After(g, verify, Start(g, name, n), es).author.signed ==> l.epoch <= es[k].list.epoch
    ensures var c := After(g, verify, Start(g, name, n), es).members[i];
            c.epoch == es[k].list.epoch && c.members == es[k].list.members
  {
    var z := After(g, verify, Start(g, name, n), es);
    PinnedToFirst(g, verify, name, n, es, i);
    NewestWins(g, verify, name, n, es, i);
    FoundedKeeps(g, name);
    assert WorldInv(g, Start(g, name, n));
    RunKeeps(g, verify, Start(g, name, n), es);
    assert Follows(g, z.author.signed, z.members[i]);
    assert z.members[i].adopted[|z.members[i].adopted| - 1] == Shown(z.members[i]);
  }

  // ----- Links -----

  /** What becomes of a link whose peer was authenticated, decided by the identity, the index and the list
      alone: it is closed, verified and indexed, or kept waiting. No other link moves. */
  lemma ConnectedExactly(c: Context, v: Links, q: PeerId, identity: Option<Bytes>)
    requires q in v.table
    ensures var u := Connected(c, v, q, identity);
            (forall r :: r != q ==> (r in u.table <==> r in v.table) && (r in v.table ==> u.table[r] == v.table[r]))
            && (q !in u.table <==>
                  identity.None? || (identity.value in v.index && v.index[identity.value] != Ref(q, v.table[q].serial))
                  || (c.author && c.listed.Some? && identity.value !in c.listed.value && c.full))
            && (q in u.table ==>
                  u.table[q].peerIdentity == identity && u.table[q].serial == v.table[q].serial
                  && (c.author || (c.listed.Some? && identity.value in c.listed.value) ==>
                        u.table[q].verified && identity.value in u.index && u.index[identity.value] == Ref(q, v.table[q].serial))
                  && (!c.author && (c.listed.None? || identity.value !in c.listed.value) ==>
                        u.table[q].verified == v.table[q].verified && u.table[q].membershipRequested && u.index == v.index
                        && u.table[q].unlisted == (v.table[q].unlisted || c.listed.Some?)))
  {
  }
}
