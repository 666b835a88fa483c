/** The link tables of a group session on values (`group/group-session.ts`): which links are verified,
    flagged or closed by each step, and what every step keeps. */
module LinkSpec {
  import opened Bytes
  import opened Membership
  import Codec

  type PeerId = string

  /** What a session records about one link. Records are told apart by `serial`, which stands for the
      identity of the record: a peer that is signalled again gets a new one. `connected` stands for the
      state of the link's orchestrator, and `pendingTimer` for the armed timer that bounds the
      unverified state. */
  datatype GroupLink = GroupLink(
    serial: nat,
    connected: bool,
    peerIdentity: Option<Bytes>,
    verified: bool,
    unlisted: bool,
    announcedName: Option<Bytes>,
    membershipRequested: bool,
    pendingTimer: bool)

  /** A reference to a link record, as a closure or the identity index holds it. */
  datatype Ref = Ref(peerId: PeerId, serial: nat)

  /** The live links, and the identity index. */
  datatype Links = Links(table: map<PeerId, GroupLink>, index: map<Bytes, Ref>)

  /** What the link steps see of the session: the identities of the current list, `None` on a member
      that has not adopted one yet, and whether an author's list is full. */
  datatype Context = Context(p: Platform, author: bool, listed: Option<set<Bytes>>, full: bool, cap: int)

  function Fresh(serial: nat): GroupLink
  {
    GroupLink(serial, false, None, false, false, None, false, true)
  }

  /** `this.links.get(link.peerId) === link`. */
  predicate Live(v: Links, r: Ref)
  {
    r.peerId in v.table && v.table[r.peerId].serial == r.serial
  }

  // ----- What every step keeps -----

  predicate LinkFits(p: Platform, link: GroupLink)
  {
    link.pendingTimer == !link.verified
    && (link.peerIdentity.Some? ==> Codec.PublicKeyFault(p.onCurve, link.peerIdentity.value).None?)
    && (link.announcedName.Some? ==> |link.announcedName.value| <= MAX_MEMBER_DISPLAY_NAME)
  }

  /** When a live link is verified and when it is flagged. On the author: verified as soon as its peer
      is authenticated. On a member: verified exactly when the current list names its authenticated
      peer, and flagged exactly when there is a list that does not. */
  predicate Stands(c: Context, link: GroupLink)
  {
    if c.author then link.verified == link.peerIdentity.Some? && !link.unlisted
    else if link.peerIdentity.None? || c.listed.None? then !link.verified && !link.unlisted
    else link.verified == (link.peerIdentity.value in c.listed.value) && link.unlisted == !link.verified
  }

  /** An identity leads to a live verified link of that identity. */
  predicate Points(v: Links, k: Bytes, r: Ref)
  {
    Live(v, r) && v.table[r.peerId].verified && v.table[r.peerId].peerIdentity == Some(k)
  }

  predicate IndexOk(v: Links)
  {
    forall k :: k in v.index ==> Points(v, k, v.index[k])
  }

  predicate TableFits(p: Platform, v: Links)
  {
    forall q :: q in v.table ==> LinkFits(p, v.table[q])
  }

  predicate Sound(c: Context, v: Links)
  {
    TableFits(c.p, v) && IndexOk(v) && forall q :: q in v.table ==> Stands(c, v.table[q])
  }

  predicate LinksInv(c: Context, v: Links)
  {
    Sound(c, v) && |v.table| <= c.cap - 1
  }

  // ----- Single steps -----

  function Closed(v: Links, q: PeerId): Links
    requires q in v.table
  {
    var link := v.table[q];
    Links(v.table - {q},
          if link.peerIdentity.Some? && link.peerIdentity.value in v.index && v.index[link.peerIdentity.value] == Ref(q, link.serial)
          then v.index - {link.peerIdentity.value} else v.index)
  }

  function Dropped(v: Links, q: PeerId): Links
  {
    if q in v.table then Closed(v, q) else v
  }

  function DroppedRef(v: Links, r: Ref): Links
  {
    if Live(v, r) then Closed(v, r.peerId) else v
  }

  function Attached(v: Links, q: PeerId, serial: nat): Links
  {
    v.(table := v.table[q := Fresh(serial)])
  }

  function Verified(v: Links, q: PeerId, k: Bytes): Links
    requires q in v.table
  {
    Links(v.table[q := v.table[q].(verified := true, unlisted := false, pendingTimer := false)], v.index[k := Ref(q, v.table[q].serial)])
  }

  function Put(v: Links, q: PeerId, link: GroupLink): Links
  {
    v.(table := v.table[q := link])
  }

  /** Whether `onLinkConnected` refuses the link: no identity, an identity another link holds, or a
      newcomer to an author whose list is full. */
  predicate Refuses(c: Context, v: Links, q: PeerId, identity: Option<Bytes>)
    requires q in v.table
  {
    identity.None? || Occupied(v, q, identity.value)
    || (c.author && c.listed.Some? && identity.value !in c.listed.value && c.full)
  }

  /** The link has no identity yet, or this one. */
  predicate SameIdentity(link: GroupLink, identity: Option<Bytes>)
  {
    identity.Some? && link.peerIdentity.Some? ==> identity == link.peerIdentity
  }

  /** A link's peer was authenticated: the link is closed, verified, or asked for the list, and flagged
      if there is a list already. */
  function Connected(c: Context, v: Links, q: PeerId, identity: Option<Bytes>): Links
    requires q in v.table
  {
    if identity.None? then Closed(v, q)
    else
      var bound := Put(v, q, v.table[q].(peerIdentity := identity));
      if Occupied(v, q, identity.value) then Closed(bound, q) else Met(c, bound, q, identity.value)
  }

  /** Another link holds the identity. */
  predicate Occupied(v: Links, q: PeerId, k: Bytes)
    requires q in v.table
  {
    k in v.index && v.index[k] != Ref(q, v.table[q].serial)
  }

  /** The peer of link `q` is known to be `k`, and no other link holds that identity. */
  function Met(c: Context, v: Links, q: PeerId, k: Bytes): Links
    requires q in v.table
  {
    var listed := c.listed.Some? && k in c.listed.value;
    if c.author && c.listed.Some? && !listed && c.full then Closed(v, q)
    else if c.author || listed then Verified(v, q, k)
    else Put(v, q, v.table[q].(unlisted := v.table[q].unlisted || c.listed.Some?, membershipRequested := true))
  }

  /** What a link's orchestrator reports. */
  datatype LinkState = IsConnected(identity: Option<Bytes>) | IsDisconnected | OtherState

  function StateChanged(c: Context, v: Links, q: PeerId, state: LinkState): Links
  {
    if q !in v.table then v
    else
      var u := Put(v, q, v.table[q].(connected := state.IsConnected?));
      match state
      case IsConnected(identity) => Connected(c, u, q, identity)
      case IsDisconnected => Closed(u, q)
      case OtherState => u
  }

  /** What the author's links keep does not depend on its list. */
  lemma AuthorContext(c: Context, d: Context, v: Links)
    requires LinksInv(c, v) && c.author && d.author && c.p == d.p && c.cap == d.cap
    ensures LinksInv(d, v)
  {
    forall q | q in v.table ensures Stands(d, v.table[q]) { assert Stands(c, v.table[q]); }
  }

  lemma Fewer<K, V>(m: map<K, V>, k: K)
    ensures |m - {k}| <= |m|
    ensures k in m ==> |m - {k}| < |m|
  {
    var n := m - {k};
    assert n.Keys == m.Keys - {k};
    assert |n| == |n.Keys| && |m| == |m.Keys|;
  }

  lemma OneMore<K, V>(m: map<K, V>, k: K, v: V)
    ensures |m[k := v]| == if k in m then |m| else |m| + 1
  {
    var n := m[k := v];
    assert n.Keys == m.Keys + {k};
    assert |n| == |n.Keys| && |m| == |m.Keys|;
  }

  lemma ClosedKeeps(v: Links, q: PeerId)
    requires IndexOk(v) && q in v.table
    ensures IndexOk(Closed(v, q))
  {
    var u := Closed(v, q);
    forall k | k in u.index ensures Points(u, k, u.index[k]) {
      assert Points(v, k, v.index[k]);
    }
  }

  lemma DroppedKeeps(c: Context, v: Links, q: PeerId)
    requires LinksInv(c, v)
    ensures LinksInv(c, Dropped(v, q))
  {
    if q in v.table {
      Fewer(v.table, q);
      ClosedKeeps(v, q);
    }
  }

  lemma AttachedKeeps(c: Context, v: Links, q: PeerId, serial: nat)
    requires LinksInv(c, v) && q !in v.table && |v.table| < c.cap - 1
    ensures LinksInv(c, Attached(v, q, serial))
  {
    OneMore(v.table, q, Fresh(serial));
    var u := Attached(v, q, serial);
    forall k | k in u.index ensures Points(u, k, u.index[k]) {
      assert Points(v, k, v.index[k]);
    }
  }

  /** Setting the peer of a link that had none, or the same one, leaves the index sound. */
  lemma PutKeeps(v: Links, q: PeerId, link: GroupLink)
    requires IndexOk(v) && q in v.table
    requires link.serial == v.table[q].serial && link.verified == v.table[q].verified
    requires v.table[q].verified ==> link.peerIdentity == v.table[q].peerIdentity
    ensures IndexOk(Put(v, q, link))
  {
    var u := Put(v, q, link);
    forall k | k in u.index ensures Points(u, k, u.index[k]) {
      assert Points(v, k, v.index[k]);
    }
  }

  lemma VerifiedKeeps(v: Links, q: PeerId, k: Bytes)
    requires IndexOk(v) && q in v.table && v.table[q].peerIdentity == Some(k)
    ensures IndexOk(Verified(v, q, k))
  {
    var u := Verified(v, q, k);
    forall j | j in u.index ensures Points(u, j, u.index[j]) {
      if j != k {
        assert Points(v, j, v.index[j]);
      }
    }
  }

  /** Sound but for the link `q`, which a step is still working on. */
  predicate SoundBut(c: Context, v: Links, q: PeerId)
  {
    IndexOk(v) && forall r :: r in v.table && r != q ==> LinkFits(c.p, v.table[r]) && Stands(c, v.table[r])
  }

  lemma ClosedSound(c: Context, v: Links, q: PeerId)
    requires SoundBut(c, v, q) && q in v.table
    ensures Sound(c, Closed(v, q))
  {
    ClosedKeeps(v, q);
  }

  lemma PutSound(c: Context, v: Links, q: PeerId, link: GroupLink)
    requires SoundBut(c, v, q) && q in v.table && LinkFits(c.p, link) && Stands(c, link)
    requires link.serial == v.table[q].serial && link.verified == v.table[q].verified
    requires v.table[q].verified ==> link.peerIdentity == v.table[q].peerIdentity
    ensures Sound(c, Put(v, q, link))
  {
    PutKeeps(v, q, link);
  }

  lemma VerifiedSound(c: Context, v: Links, q: PeerId, k: Bytes)
    requires SoundBut(c, v, q) && q in v.table && v.table[q].peerIdentity == Some(k)
    requires LinkFits(c.p, v.table[q].(verified := true, pendingTimer := false))
    requires c.author || (c.listed.Some? && k in c.listed.value)
    ensures Sound(c, Verified(v, q, k))
  {
    VerifiedKeeps(v, q, k);
  }

  lemma ConnectedSound(c: Context, v: Links, q: PeerId, identity: Option<Bytes>)
    requires Sound(c, v) && q in v.table
    requires identity.Some? ==> Codec.PublicKeyFault(c.p.onCurve, identity.value).None?
    requires SameIdentity(v.table[q], identity)
    ensures Sound(c, Connected(c, v, q, identity))
  {
    if identity.None? {
      ClosedSound(c, v, q);
    } else {
      assert LinkFits(c.p, v.table[q]) && Stands(c, v.table[q]);
      var link := v.table[q].(peerIdentity := identity);
      var bound := Put(v, q, link);
      PutKeeps(v, q, link);
      assert SoundBut(c, bound, q);
      if Refuses(c, v, q, identity) {
        ClosedSound(c, bound, q);
      } else if c.author || (c.listed.Some? && identity.value in c.listed.value) {
        VerifiedSound(c, bound, q, identity.value);
      } else {
        PutSound(c, bound, q, link.(unlisted := link.unlisted || c.listed.Some?, membershipRequested := true));
      }
    }
  }

  lemma ConnectedKeeps(c: Context, v: Links, q: PeerId, identity: Option<Bytes>)
    requires LinksInv(c, v) && q in v.table
    requires identity.Some? ==> Codec.PublicKeyFault(c.p.onCurve, identity.value).None?
    requires SameIdentity(v.table[q], identity)
    ensures LinksInv(c, Connected(c, v, q, identity))
  {
    ConnectedSound(c, v, q, identity);
    SubTable(v.table, Connected(c, v, q, identity).table);
  }

  lemma RequestedKeeps(c: Context, v: Links, q: PeerId, requested: bool)
    requires LinksInv(c, v) && q in v.table
    ensures LinksInv(c, Put(v, q, v.table[q].(membershipRequested := requested)))
  {
    assert LinkFits(c.p, v.table[q]) && Stands(c, v.table[q]);
    PutSound(c, v, q, v.table[q].(membershipRequested := requested));
    OneMore(v.table, q, v.table[q].(membershipRequested := requested));
  }

  lemma StateKeeps(c: Context, v: Links, q: PeerId, connected: bool)
    requires LinksInv(c, v) && q in v.table
    ensures LinksInv(c, Put(v, q, v.table[q].(connected := connected)))
  {
    assert LinkFits(c.p, v.table[q]) && Stands(c, v.table[q]);
    PutSound(c, v, q, v.table[q].(connected := connected));
    OneMore(v.table, q, v.table[q].(connected := connected));
  }

  lemma ConnectedSerials(c: Context, v: Links, q: PeerId, identity: Option<Bytes>)
    requires q in v.table
    ensures forall r :: r in Connected(c, v, q, identity).table ==>
              r in v.table && Connected(c, v, q, identity).table[r].serial == v.table[r].serial
  {
  }

  lemma AnnouncedKeeps(c: Context, v: Links, q: PeerId, name: Bytes)
    requires LinksInv(c, v) && q in v.table && |name| <= MAX_MEMBER_DISPLAY_NAME
    ensures LinksInv(c, Put(v, q, v.table[q].(announcedName := Some(name))))
  {
    assert LinkFits(c.p, v.table[q]) && Stands(c, v.table[q]);
    PutKeeps(v, q, v.table[q].(announcedName := Some(name)));
    OneMore(v.table, q, v.table[q].(announcedName := Some(name)));
  }

  // ----- Adopting a list -----

  /** First the links of removed members are closed, through the index. */
  function WithoutRemoved(v: Links, removed: seq<Member>): Links
    decreases |removed|
  {
    if removed == [] then v
    else
      var u := WithoutRemoved(v, removed[..|removed| - 1]);
      var k := removed[|removed| - 1].identityPub;
      if k in u.index then DroppedRef(u, u.index[k]) else u
  }

  /** Then every link is held against the new list. A link whose peer it does not name is closed if it
      had been verified or flagged before; otherwise this is its one reprieve, and it is flagged. */
  predicate Stays(keys: set<Bytes>, link: GroupLink)
  {
    link.peerIdentity.None? || link.peerIdentity.value in keys || (!link.verified && !link.unlisted)
  }

  function Graded(keys: set<Bytes>, link: GroupLink): GroupLink
  {
    if link.peerIdentity.None? || link.verified then link
    else if link.peerIdentity.value in keys then link.(verified := true, unlisted := false, pendingTimer := false)
    else link.(unlisted := true)
  }

  /** The link is the one its identity leads to. */
  predicate IndexedAt(v: Links, q: PeerId)
  {
    q in v.table && v.table[q].peerIdentity.Some? && v.table[q].peerIdentity.value in v.index
    && v.index[v.table[q].peerIdentity.value] == Ref(q, v.table[q].serial)
  }

  /** No other link has this link's identity. */
  ghost predicate Only(v: Links, q: PeerId)
    requires q in v.table
  {
    forall r :: r in v.table && r != q ==> v.table[r].peerIdentity != v.table[q].peerIdentity
  }

  /** A link that is verified in the end, shares its identity with no other, and was indexed if it was
      verified already, is indexed. */
  ghost predicate KeepsIndex(v: Links, u: Links)
  {
    forall q :: q in v.table && q in u.table && u.table[q].verified && Only(v, q) && (v.table[q].verified ==> IndexedAt(v, q))
      ==> IndexedAt(u, q)
  }

  /** The outcome of holding every link of `v` against `keys`, in whatever order. */
  ghost predicate Reconciled(keys: set<Bytes>, v: Links, u: Links)
  {
    IndexOk(u) && KeepsIndex(v, u)
    && (forall q :: q in u.table <==> q in v.table && Stays(keys, v.table[q]))
    && (forall q :: q in u.table ==> u.table[q] == Graded(keys, v.table[q]))
  }

  lemma {:induction false} WithoutRemovedKeeps(v: Links, removed: seq<Member>)
    requires IndexOk(v)
    ensures var u := WithoutRemoved(v, removed);
            IndexOk(u)
    ensures var u := WithoutRemoved(v, removed);
            forall q :: q in u.table ==> q in v.table && u.table[q] == v.table[q]
    ensures var u := WithoutRemoved(v, removed);
            forall q :: q in v.table && q !in u.table ==>
              v.table[q].verified && v.table[q].peerIdentity.Some? && v.table[q].peerIdentity.value in Keys(removed)
    decreases |removed|
  {
    if removed != [] {
      var last := |removed| - 1;
      WithoutRemovedKeeps(v, removed[..last]);
      var u := WithoutRemoved(v, removed[..last]);
      assert removed == removed[..last] + [removed[last]];
      var k := removed[last].identityPub;
      if k in u.index {
        assert Points(u, k, u.index[k]);
        ClosedKeeps(u, u.index[k].peerId);
      }
    }
  }

  lemma SubTable(v: map<PeerId, GroupLink>, u: map<PeerId, GroupLink>)
    requires u.Keys <= v.Keys
    ensures |u| <= |v|
    decreases |v|
  {
    if u.Keys != v.Keys {
      var q :| q in v.Keys && q !in u.Keys;
      Fewer(v, q);
      SubTable(v - {q}, u);
    } else {
      assert |u| == |u.Keys| && |v| == |v.Keys|;
    }
  }

  /** The outcome of a whole adoption: a link stays exactly when its peer is not authenticated yet, or
      is on the new list, or this is the first list ever adopted; what stays meets the invariant under
      the new list. So after any later adoption no authenticated peer the list leaves out has a link. */
  lemma AdoptionKeeps(c: Context, v: Links, removed: seq<Member>, keys: set<Bytes>, u: Links)
    requires LinksInv(c, v) && !c.author && Keys(removed) !! keys
    requires Reconciled(keys, WithoutRemoved(v, removed), u)
    ensures LinksInv(c.(listed := Some(keys)), u)
    ensures forall q :: q in u.table
              <==> q in v.table && (v.table[q].peerIdentity.None? || v.table[q].peerIdentity.value in keys || c.listed.None?)
    ensures forall q :: q in u.table ==> u.table[q] == Graded(keys, v.table[q])
  {
    WithoutRemovedKeeps(v, removed);
    var w := WithoutRemoved(v, removed);
    forall q | q in v.table
      ensures LinkFits(c.p, v.table[q]) && Stands(c, v.table[q])
      ensures q in w.table ==> w.table[q] == v.table[q]
      ensures q in u.table ==> q in w.table
    {}
    forall q | q in u.table
      ensures LinkFits(c.p, u.table[q]) && Stands(c.(listed := Some(keys)), u.table[q])
    {
      GradedStands(c, keys, v.table[q]);
    }
    SubTable(v.table, u.table);
  }

  lemma GradedStands(c: Context, keys: set<Bytes>, link: GroupLink)
    requires !c.author && LinkFits(c.p, link) && Stands(c, link)
    requires Stays(keys, link) && (link.verified && link.peerIdentity.Some? ==> link.peerIdentity.value in keys)
    ensures LinkFits(c.p, Graded(keys, link)) && Stands(c.(listed := Some(keys)), Graded(keys, link))
  {
  }

  /** The links an adoption leaves. */
  function Surviving(c: Context, v: Links, keys: set<Bytes>): set<PeerId>
  {
    set q | q in v.table && (v.table[q].peerIdentity.None? || v.table[q].peerIdentity.value in keys || c.listed.None?)
  }

  function ReconciledOne(keys: set<Bytes>, v: Links, q: PeerId): Links
    requires q in v.table
  {
    var link := v.table[q];
    if link.peerIdentity.None? then v
    else if link.peerIdentity.value in keys then
      if link.verified then v else Verified(v, q, link.peerIdentity.value)
    else if !link.verified && !link.unlisted then Put(v, q, link.(unlisted := true))
    else Closed(v, q)
  }

  /** Half way through the loop: the links in `rest` are as they were, the others are settled. */
  ghost predicate Between(keys: set<Bytes>, v: Links, u: Links, rest: set<PeerId>)
  {
    IndexOk(u) && KeepsIndex(v, u)
    && (forall q :: q in u.table ==> q in v.table)
    && (forall q :: q in rest && q in v.table ==> q in u.table && u.table[q] == v.table[q])
    && (forall q :: q in v.table && q !in rest ==> (q in u.table <==> Stays(keys, v.table[q])))
    && (forall q :: q in u.table && q !in rest ==> u.table[q] == Graded(keys, v.table[q]))
  }

  lemma BetweenStep(keys: set<Bytes>, v: Links, u: Links, rest: set<PeerId>, q: PeerId)
    requires Between(keys, v, u, rest) && q in rest && q in v.table
    ensures q in u.table && u.table[q] == v.table[q]
    ensures Between(keys, v, ReconciledOne(keys, u, q), rest - {q})
  {
    var link := u.table[q];
    if link.peerIdentity.Some? {
      IndexStep(keys, v, u, q);
      if link.peerIdentity.value in keys {
        if !link.verified {
          VerifiedKeeps(u, q, link.peerIdentity.value);
        }
      } else if !link.verified && !link.unlisted {
        PutKeeps(u, q, link.(unlisted := true));
      } else {
        ClosedKeeps(u, q);
      }
    }
  }

  lemma IndexStep(keys: set<Bytes>, v: Links, u: Links, q: PeerId)
    requires KeepsIndex(v, u) && q in u.table && q in v.table
    requires forall r :: r in u.table ==> r in v.table && u.table[r].peerIdentity == v.table[r].peerIdentity
    ensures KeepsIndex(v, ReconciledOne(keys, u, q))
  {
  }

  lemma WithoutRemovedIndex(v: Links, removed: seq<Member>)
    requires IndexOk(v)
    ensures IndexOk(WithoutRemoved(v, removed))
  {
    WithoutRemovedKeeps(v, removed);
  }

  lemma AdoptionOutcome(before: Context, after: Context, v: Links, removed: seq<Member>, u: Links)
    requires LinksInv(before, v) && !before.author && after.listed.Some? && Keys(removed) !! after.listed.value
    requires !after.author && after.p == before.p && after.cap == before.cap
    requires Reconciled(after.listed.value, WithoutRemoved(v, removed), u)
    ensures LinksInv(after, u) && u.table.Keys == Surviving(before, v, after.listed.value)
    ensures forall q :: q in u.table ==> q in v.table && u.table[q].serial == v.table[q].serial
  {
    AdoptionKeeps(before, v, removed, after.listed.value, u);
  }

  // ----- Where the index leads back -----

  /** Every verified link is the one its identity leads to: the converse of `IndexOk`. */
  ghost predicate AllIndexed(v: Links)
  {
    forall q :: q in v.table && v.table[q].verified ==> IndexedAt(v, q)
  }

  predicate Shares(a: GroupLink, b: GroupLink, keys: set<Bytes>)
  {
    a.peerIdentity.Some? && a.peerIdentity.value in keys && a.peerIdentity == b.peerIdentity
  }

  /** No two links have one and the same identity out of `keys`. */
  ghost predicate Untwinned(v: Links, keys: set<Bytes>)
  {
    forall q, r :: q in v.table && r in v.table && Shares(v.table[q], v.table[r], keys) ==> q == r
  }

  lemma ClosedIndexed(v: Links, q: PeerId)
    requires AllIndexed(v) && q in v.table
    ensures AllIndexed(Closed(v, q))
  {
    var u := Closed(v, q);
    forall r | r in u.table && u.table[r].verified ensures IndexedAt(u, r) {
      assert IndexedAt(v, r);
    }
  }

  lemma AttachedIndexed(v: Links, q: PeerId, serial: nat)
    requires AllIndexed(v) && q !in v.table
    ensures AllIndexed(Attached(v, q, serial))
  {
    forall r | r in v.table && v.table[r].verified ensures IndexedAt(v, r) {}
  }

  lemma VerifiedIndexed(v: Links, q: PeerId, k: Bytes)
    requires AllIndexed(v) && q in v.table && v.table[q].peerIdentity == Some(k)
    requires k in v.index ==> v.index[k] == Ref(q, v.table[q].serial)
    ensures AllIndexed(Verified(v, q, k))
  {
    var u := Verified(v, q, k);
    forall r | r in u.table && u.table[r].verified ensures IndexedAt(u, r) {
      assert r != q ==> IndexedAt(v, r);
    }
  }

  lemma PutIndexed(v: Links, q: PeerId, link: GroupLink)
    requires AllIndexed(v) && q in v.table
    requires link.serial == v.table[q].serial && link.verified == v.table[q].verified
    requires v.table[q].verified ==> link.peerIdentity == v.table[q].peerIdentity
    ensures AllIndexed(Put(v, q, link))
  {
    var u := Put(v, q, link);
    forall r | r in u.table && u.table[r].verified ensures IndexedAt(u, r) {
      assert IndexedAt(v, r);
    }
  }

  /** No step of a single link breaks it: the check for an occupant of the identity sees to that. */
  lemma ConnectedIndexed(c: Context, v: Links, q: PeerId, identity: Option<Bytes>)
    requires AllIndexed(v) && q in v.table
    requires SameIdentity(v.table[q], identity)
    requires v.table[q].verified ==> v.table[q].peerIdentity.Some?
    ensures AllIndexed(Connected(c, v, q, identity))
  {
    if identity.None? {
      ClosedIndexed(v, q);
    } else {
      var link := v.table[q].(peerIdentity := identity);
      var bound := Put(v, q, link);
      PutIndexed(v, q, link);
      if Refuses(c, v, q, identity) {
        ClosedIndexed(bound, q);
      } else if c.author || (c.listed.Some? && identity.value in c.listed.value) {
        VerifiedIndexed(bound, q, identity.value);
      } else {
        PutIndexed(bound, q, link.(unlisted := link.unlisted || c.listed.Some?, membershipRequested := true));
      }
    }
  }

  lemma {:induction false} WithoutRemovedIndexed(v: Links, removed: seq<Member>)
    requires AllIndexed(v)
    ensures AllIndexed(WithoutRemoved(v, removed))
    decreases |removed|
  {
    if removed != [] {
      var last := |removed| - 1;
      WithoutRemovedIndexed(v, removed[..last]);
      var u, k := WithoutRemoved(v, removed[..last]), removed[last].identityPub;
      if k in u.index && Live(u, u.index[k]) {
        ClosedIndexed(u, u.index[k].peerId);
      }
    }
  }

  /** Adoption is the one step that can break it, and when it does exactly: where every verified link was
      indexed, every verified link is indexed afterwards if and only if no two links share an identity of
      the new list. */
  lemma AdoptionIndexes(c: Context, v: Links, removed: seq<Member>, keys: set<Bytes>, u: Links)
    requires LinksInv(c, v) && !c.author && Keys(removed) !! keys && AllIndexed(v)
    requires Reconciled(keys, WithoutRemoved(v, removed), u)
    ensures AllIndexed(u) <==> Untwinned(v, keys)
  {
    var w := WithoutRemoved(v, removed);
    AdoptionKeeps(c, v, removed, keys, u);
    WithoutRemovedKeeps(v, removed);
    WithoutRemovedIndexed(v, removed);
    if AllIndexed(u) {
      forall q, r | q in v.table && r in v.table && Shares(v.table[q], v.table[r], keys) ensures q == r {
        assert IndexedAt(u, q) && IndexedAt(u, r);
      }
    }
    if Untwinned(v, keys) {
      forall q | q in u.table && u.table[q].verified ensures IndexedAt(u, q) {
        UntwinnedOnly(c.(listed := Some(keys)), v, w, keys, u, q);
      }
    }
  }

  lemma UntwinnedOnly(c: Context, v: Links, w: Links, keys: set<Bytes>, u: Links, q: PeerId)
    requires Untwinned(v, keys) && AllIndexed(w) && Reconciled(keys, w, u) && LinksInv(c, u) && !c.author && c.listed == Some(keys)
    requires forall r :: r in w.table ==> r in v.table && w.table[r] == v.table[r]
    requires q in u.table && u.table[q].verified
    ensures IndexedAt(u, q)
  {
    assert Stands(c, u.table[q]);
    assert u.table[q] == Graded(keys, w.table[q]);
    assert forall r :: r in w.table && w.table[r].peerIdentity == w.table[q].peerIdentity ==> Shares(v.table[q], v.table[r], keys);
    assert Only(w, q);
  }

  /** Two links of one identity can wait for the first list: both peers were signalled and authenticated
      before there was one. */
  lemma TwinsWait(c: Context, k: Bytes) returns (v: Links)
    requires !c.author && c.listed.None? && c.cap >= 3 && Codec.PublicKeyFault(c.p.onCurve, k).None?
    ensures v == Connected(c, Connected(c, Attached(Attached(Links(map[], map[]), "a", 0), "b", 1), "a", Some(k)), "b", Some(k))
    ensures LinksInv(c, v) && AllIndexed(v) && v.index == map[] && v.table.Keys == {"a", "b"}
    ensures forall q :: q in v.table ==> v.table[q].peerIdentity == Some(k) && !v.table[q].verified && !v.table[q].unlisted
  {
    var a := Fresh(0).(peerIdentity := Some(k), membershipRequested := true);
    var b := Fresh(1).(peerIdentity := Some(k), membershipRequested := true);
    v := Links(map["a" := a, "b" := b], map[]);
    var attached := Attached(Attached(Links(map[], map[]), "a", 0), "b", 1);
    assert Connected(c, attached, "a", Some(k)).table == map["a" := a, "b" := Fresh(1)];
    assert v.table == map["a" := a]["b" := b];
    OneMore(map["a" := a], "b", b);
  }

  /** The list that names their identity verifies both, and only one is indexed. */
  lemma TwinsBothVerified(c: Context, k: Bytes) returns (v: Links, u: Links)
    requires !c.author && c.listed.None? && c.cap >= 3 && Codec.PublicKeyFault(c.p.onCurve, k).None?
    ensures v == Connected(c, Connected(c, Attached(Attached(Links(map[], map[]), "a", 0), "b", 1), "a", Some(k)), "b", Some(k))
    ensures LinksInv(c, v) && AllIndexed(v) && Reconciled({k}, WithoutRemoved(v, []), u)
    ensures u.table.Keys == {"a", "b"} && u.table["a"].verified && u.table["b"].verified && !IndexedAt(u, "a") && IndexedAt(u, "b")
  {
    v := TwinsWait(c, k);
    BetweenStep({k}, v, v, {"a", "b"}, "a");
    var half := ReconciledOne({k}, v, "a");
    assert {"a", "b"} - {"a"} == {"b"};
    BetweenStep({k}, v, half, {"b"}, "b");
    u := ReconciledOne({k}, half, "b");
    assert {"b"} - {"b"} == {};
  }
}
