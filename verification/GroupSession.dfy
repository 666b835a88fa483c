/** One member's group session (`group/group-session.ts`): its links, its list, and on the author the
    queue of list mutations. Each method is one stretch of code between two awaits, so any order of
    calls is an interleaving of the session's coroutines. The steps on the list refine GroupSpec and
    the steps on the link tables refine LinkSpec. */
module GroupSession {
  import opened Bytes
  import opened Text
  import opened Membership
  import opened GroupSpec
  import opened LinkSpec
  import Codec

  /** A queued author mutation, with what its closure captured. */
  datatype Task =
    | AddTask(link: Ref)
    | KickTask(key: Bytes)
    | RenameTask(link: Ref, who: Bytes, name: Bytes)
    | RenameSelfTask(name: Bytes)

  /** Where the running mutation is suspended. */
  datatype Running =
    | Signing(next: seq<Member>, removed: Option<Bytes>)
    | Gossiping(removed: Option<Bytes>)
    | Hashing

  /** An on-demand signing in flight, for the link that asked. */
  datatype Answering = Answering(link: Ref, listing: Listing)

  datatype Sent =
    | ListTo(peer: PeerId, payload: Bytes)
    | RequestTo(peer: PeerId)
    | NameTo(peer: PeerId, name: Bytes)

  /** An announcement of the display name; an empty name is not announced. */
  function Announcement(peer: PeerId, name: Bytes): seq<Sent>
  {
    if name == [] then [] else [NameTo(peer, name)]
  }

  /** What `onLinkConnected` sends on a link it does not close as a second one: the name, and on a member
      that cannot place the peer yet a request for the list, unless one is out already. */
  function Greeting(c: Context, v: Links, q: PeerId, identity: Option<Bytes>, name: Bytes): seq<Sent>
    requires q in v.table
  {
    if identity.None? || Occupied(v, q, identity.value) then []
    else Announcement(q, name) + Request(c, v, q, identity.value)
  }

  function Request(c: Context, v: Links, q: PeerId, k: Bytes): seq<Sent>
    requires q in v.table
  {
    if c.author || (c.listed.Some? && k in c.listed.value) || v.table[q].membershipRequested then [] else [RequestTo(q)]
  }

  function Next(running: Option<Running>): Option<seq<Member>>
  {
    if running.Some? && running.value.Signing? then Some(running.value.next) else None
  }

  function Listings(answering: seq<Answering>): seq<Listing>
  {
    seq(|answering|, i requires 0 <= i < |answering| => answering[i].listing)
  }

  /** Exactly the connected links of `before`, but for those in `rest`, were asked, and nothing else was touched or
      sent. */
  ghost predicate AskedBut(links: map<PeerId, GroupLink>, outbox: seq<Sent>, rest: set<PeerId>, before: map<PeerId, GroupLink>, sent: seq<Sent>)
  {
    links.Keys == before.Keys && sent <= outbox
    && (forall q :: q in before ==>
          links[q] == if before[q].connected && q !in rest then before[q].(membershipRequested := true) else before[q])
    && (forall s :: s in outbox[|sent|..] <==>
          s.RequestTo? && s.peer in before && s.peer !in rest && before[s.peer].connected)
  }

  lemma AskedNext(links: map<PeerId, GroupLink>, outbox: seq<Sent>, rest: set<PeerId>, before: map<PeerId, GroupLink>, sent: seq<Sent>, q: PeerId)
    requires AskedBut(links, outbox, rest, before, sent) && q in rest && q in links
    ensures if links[q].connected
            then AskedBut(links[q := links[q].(membershipRequested := true)], outbox + [RequestTo(q)], rest - {q}, before, sent)
            else AskedBut(links, outbox, rest - {q}, before, sent)
  {
    assert (outbox + [RequestTo(q)])[|sent|..] == outbox[|sent|..] + [RequestTo(q)];
  }

  /** What is in a greeting. */
  lemma Greets(c: Context, v: Links, q: PeerId, identity: Option<Bytes>, name: Bytes)
    requires q in v.table
    ensures var known := identity.Some? && (identity.value in v.index ==> v.index[identity.value] == Ref(q, v.table[q].serial));
            (NameTo(q, name) in Greeting(c, v, q, identity, name) <==> known && name != [])
            && (RequestTo(q) in Greeting(c, v, q, identity, name) <==>
                  known && !c.author && !v.table[q].membershipRequested && (c.listed.None? || identity.value !in c.listed.value))
  {
  }

  class GroupSession {
    const group: Group
    const author: bool
    const verify: Verify

    var links: map<PeerId, GroupLink>
    var linksByIdentity: map<Bytes, Ref>
    var members: seq<Member>
    var epoch: int
    var membershipValue: Option<Membership>
    var pinnedAuthorKey: Option<Bytes>
    var localDisplayName: Bytes
    var closed: bool

    var authorMutationQueue: seq<Task>
    ghost var enqueued: seq<Task>
    ghost var taken: seq<Task>
    var running: Option<Running>
    var answering: seq<Answering>
    var verifying: seq<Membership>
    var outbox: seq<Sent>
    var made: nat

    ghost var history: seq<seq<Member>>
    ghost var signed: seq<Listing>
    ghost var adopted: seq<Listing>
    ghost var events: seq<AuthorEvent>
    ghost const firstName: Bytes

    // ----- What every step keeps -----

    /** The author's side as the specification sees it. */
    ghost function View(): AuthorView
      reads this`history, this`running, this`answering, this`signed
    {
      AuthorView(history, Next(running), Listings(answering), signed)
    }

    /** The member's side as the specification sees it. */
    ghost function Core(): Core
      reads this`closed, this`epoch, this`members, this`pinnedAuthorKey, this`adopted
    {
      GroupSpec.Core(closed, epoch, members, pinnedAuthorKey, adopted)
    }

    /** The author's state is one the specification reaches, and its fields agree with it. */
    ghost predicate AuthorOk()
      reads this`events, this`history, this`running, this`answering, this`signed, this`epoch, this`members, this`membershipValue
      reads this`localDisplayName
    {
      |firstName| <= MAX_MEMBER_DISPLAY_NAME && Reached(group, firstName, events, View())
      && history != [] && epoch == |history| && members == history[|history| - 1]
      && (membershipValue.Some? ==> Cached(membershipValue.value, signed))
      && |localDisplayName| <= MAX_MEMBER_DISPLAY_NAME
    }

    /** No queued mutation is lost, repeated or overtaken: what was ever enqueued is what was taken so far,
        followed by what is still queued. */
    ghost predicate QueueOk()
      reads this`authorMutationQueue, this`enqueued, this`taken
    {
      enqueued == taken + authorMutationQueue && forall t :: t in authorMutationQueue ==> TaskOk(t)
    }

    /** Over every run: the mutation enqueued as number `i` is the one taken as number `i`, or it is still
        queued, behind those enqueued before it. */
    lemma NothingLost(i: nat)
      requires QueueOk() && i < |enqueued|
      ensures |enqueued| == |taken| + |authorMutationQueue|
      ensures enqueued[i] == if i < |taken| then taken[i] else authorMutationQueue[i - |taken|]
    {
    }

    predicate Cached(m: Membership, signed: seq<Listing>)
    {
      m.groupId == group.id && |m.signature| == SIGNATURE_BYTES && Listing(m.epoch, m.members) in signed
    }

    predicate TaskOk(t: Task)
    {
      match t
      case AddTask(_) => true
      case KickTask(key) => key != group.self
      case RenameTask(_, _, name) => |name| <= MAX_MEMBER_DISPLAY_NAME
      case RenameSelfTask(name) => |name| <= MAX_MEMBER_DISPLAY_NAME
    }

    /** A list that passed the decoder and the group check. */
    predicate Received(m: Membership)
    {
      m.groupId == group.id && Encodable(group.p, m) && Authors(m.members) == 1
    }

    ghost predicate MemberOk()
      reads this`closed, this`epoch, this`members, this`pinnedAuthorKey, this`adopted, this`membershipValue, this`verifying
    {
      CoreInv(Core())
      && (membershipValue.Some? <==> adopted != [])
      && (membershipValue.Some? ==> Received(membershipValue.value))
      && (membershipValue.Some? ==> membershipValue.value.epoch == epoch && membershipValue.value.members == members)
      && (forall m :: m in verifying ==> Received(m))
    }

    /** What the session's own list keeps. It does not depend on the links. */
    ghost predicate ListOk()
      reads this`closed, this`epoch, this`members, this`pinnedAuthorKey, this`adopted, this`membershipValue, this`verifying
      reads this`events, this`history, this`running, this`answering, this`signed, this`localDisplayName
    {
      if author then AuthorOk() else MemberOk()
    }

    /** The link tables as the specification sees them. */
    function Tables(): Links
      reads this`links, this`linksByIdentity
    {
      Links(links, linksByIdentity)
    }

    function Context(): Context
      reads this`membershipValue, this`members
    {
      LinkSpec.Context(group.p, author, if author || membershipValue.Some? then Some(Keys(members)) else None,
                       |members| >= group.cap, group.cap)
    }

    ghost predicate LinksOk()
      reads this`links, this`linksByIdentity, this`membershipValue, this`members, this`closed, this`made
    {
      GroupOk(group) && LinksInv(Context(), Tables()) && (closed ==> links == map[])
      && forall q :: q in links ==> links[q].serial < made
    }

    /** Each step below keeps the three parts; its contract names those it can touch. */
    ghost predicate Valid()
      reads this
    {
      LinksOk() && ListOk() && QueueOk()
    }

    /** The author opens at epoch one with its own entry; anyone else holds nothing yet. */
    constructor (group: Group, author: bool, verify: Verify, localDisplayName: Bytes)
      requires GroupOk(group) && |localDisplayName| <= MAX_MEMBER_DISPLAY_NAME
      ensures Valid() && this.group == group && this.author == author && this.verify == verify
      ensures author ==> View() == Founded(group.self, localDisplayName)
      ensures !author ==> Core() == JOINING
      ensures !closed && links == map[] && authorMutationQueue == [] && running.None? && outbox == []
    {
      this.group, this.author, this.verify, this.localDisplayName := group, author, verify, localDisplayName;
      links, linksByIdentity, membershipValue, pinnedAuthorKey, closed := map[], map[], None, None, false;
      authorMutationQueue, running, answering, verifying, outbox := [], None, [], [], [];
      enqueued, taken := [], [];
      signed, adopted, made, events, firstName := [], [], 0, [], localDisplayName;
      if author {
        epoch := 1;
        members := [Member(group.self, true, localDisplayName)];
        history := [[Member(group.self, true, localDisplayName)]];
      } else {
        epoch, members, history := 0, [], [];
      }
      new;
      FoundedKeeps(group, localDisplayName);
    }

    // ----- Link steps -----

    /** `unlink` and `closeLink`: a link that is still in the table leaves both tables. */
    method CloseLink(link: Ref)
      modifies this`links, this`linksByIdentity
      ensures Tables() == DroppedRef(old(Tables()), link)
      ensures links == if link.peerId in old(links) && old(links[link.peerId]).serial == link.serial then old(links) - {link.peerId}
                       else old(links)
    {
      if !Live(Tables(), link) {
        return;
      }
      var record := links[link.peerId];
      links := links - {link.peerId};
      if record.peerIdentity.Some? {
        var keyId := record.peerIdentity.value;
        if keyId in linksByIdentity && linksByIdentity[keyId] == link {
          linksByIdentity := linksByIdentity - {keyId};
        }
      }
    }

    method MarkVerified(link: Ref, keyId: Bytes)
      requires Live(Tables(), link)
      modifies this`links, this`linksByIdentity
      ensures Tables() == Verified(old(Tables()), link.peerId, keyId)
    {
      links := links[link.peerId := links[link.peerId].(verified := true, unlisted := false, pendingTimer := false)];
      linksByIdentity := linksByIdentity[keyId := link];
    }

    method SetLink(peerId: PeerId, link: GroupLink)
      modifies this`links
      ensures Tables() == Put(old(Tables()), peerId, link)
    {
      links := links[peerId := link];
    }

    /** `dropLink`. */
    method DropLink(peerId: PeerId)
      requires LinksOk()
      modifies this`links, this`linksByIdentity
      ensures LinksOk() && Tables() == Dropped(old(Tables()), peerId)
    {
      if peerId in links {
        DroppedKeeps(Context(), Tables(), peerId);
        CloseLink(Ref(peerId, links[peerId].serial));
      }
    }

    /** `attachLinkTransport`. The orchestrator may refuse to start; the record is removed again. */
    method AttachLinkTransport(peerId: PeerId, refused: bool) returns (r: Result<(), GroupError>)
      requires LinksOk()
      modifies this`links, this`linksByIdentity, this`made
      ensures LinksOk()
      ensures r.Err? <==> !closed && (refused || |Dropped(old(Tables()), peerId).table| >= group.cap - 1)
      ensures Tables() == if closed then old(Tables())
                          else if r.Err? then Dropped(old(Tables()), peerId)
                          else Attached(Dropped(old(Tables()), peerId), peerId, old(made))
      ensures !closed && r.Ok? ==> links == old(links)[peerId := GroupLink(old(made), false, None, false, false, None, false, true)]
    {
      if closed {
        return Ok(());
      }
      DropLink(peerId);
      r := StartLink(peerId, refused);
    }

    method StartLink(peerId: PeerId, refused: bool) returns (r: Result<(), GroupError>)
      requires LinksOk() && !closed && peerId !in links
      modifies this`links, this`made
      ensures LinksOk()
      ensures r.Err? <==> refused || |old(links)| >= group.cap - 1
      ensures Tables() == if r.Err? then old(Tables()) else Attached(old(Tables()), peerId, old(made))
    {
      var full := TableFull();
      if full {
        return Err(MemberLimitReached);
      }
      if refused {
        return Err(Malformed);
      }
      AddLink(peerId);
      return Ok(());
    }

    /** A group of `maxMembers` holds at most one link to each other member. */
    method TableFull() returns (full: bool)
      ensures full == (|links| >= group.cap - 1)
    {
      return |links| >= group.cap - 1;
    }

    method AddLink(peerId: PeerId)
      requires LinksOk() && !closed && peerId !in links && |links| < group.cap - 1
      modifies this`links, this`made
      ensures LinksOk() && Tables() == Attached(old(Tables()), peerId, old(made))
    {
      AttachedKeeps(Context(), Tables(), peerId, made);
      links := links[peerId := Fresh(made)];
      made := made + 1;
    }

    /** `onLinkConnected`: a link's orchestrator has authenticated its peer. On the author an unknown peer
        that is let in is queued to join. What the links keep is kept if the link reports no second
        identity. */
    method OnLinkConnected(peerId: PeerId, identity: Option<Bytes>)
      requires LinksOk() && QueueOk() && peerId in links
      requires identity.Some? ==> Codec.PublicKeyFault(group.p.onCurve, identity.value).None?
      modifies this`links, this`linksByIdentity, this`authorMutationQueue, this`enqueued, this`outbox
      ensures SameIdentity(old(links[peerId]), identity) ==> LinksOk()
      ensures QueueOk()
      ensures Tables() == Connected(Context(), old(Tables()), peerId, identity)
      ensures authorMutationQueue == old(authorMutationQueue)
                + if author && identity.Some? && identity.value !in Keys(members) && |members| < group.cap
                     && (identity.value in old(linksByIdentity) ==>
                           old(linksByIdentity)[identity.value] == Ref(peerId, old(links[peerId]).serial))
                  then [AddTask(Ref(peerId, old(links[peerId]).serial))] else []
      ensures outbox == old(outbox) + Greeting(Context(), old(Tables()), peerId, identity, localDisplayName)
      ensures var known := identity.Some? && (identity.value in old(linksByIdentity) ==>
                             old(linksByIdentity)[identity.value] == Ref(peerId, old(links[peerId]).serial));
              (NameTo(peerId, localDisplayName) in outbox[|old(outbox)|..] <==> known && localDisplayName != [])
              && (RequestTo(peerId) in outbox[|old(outbox)|..] <==>
                    known && !author && !old(links[peerId]).membershipRequested
                    && (membershipValue.None? || identity.value !in Keys(members)))
    {
      ConnectAndQueue(peerId, identity);
      assert outbox[|old(outbox)|..] == Greeting(Context(), old(Tables()), peerId, identity, localDisplayName);
      Greets(Context(), old(Tables()), peerId, identity, localDisplayName);
    }

    method ConnectAndQueue(peerId: PeerId, identity: Option<Bytes>)
      requires LinksOk() && QueueOk() && peerId in links
      requires identity.Some? ==> Codec.PublicKeyFault(group.p.onCurve, identity.value).None?
      modifies this`links, this`linksByIdentity, this`authorMutationQueue, this`enqueued, this`outbox
      ensures SameIdentity(old(links[peerId]), identity) ==> LinksOk()
      ensures QueueOk()
      ensures Tables() == Connected(Context(), old(Tables()), peerId, identity)
      ensures authorMutationQueue == old(authorMutationQueue)
                + if author && !Refuses(Context(), old(Tables()), peerId, identity) && identity.value !in Keys(members)
                  then [AddTask(Ref(peerId, old(links[peerId]).serial))] else []
      ensures outbox == old(outbox) + Greeting(Context(), old(Tables()), peerId, identity, localDisplayName)
    {
      var link := Ref(peerId, links[peerId].serial);
      var joins := ConnectSoundly(link, identity);
      if joins {
        Enqueue(AddTask(link));
      }
    }

    method ConnectSoundly(link: Ref, identity: Option<Bytes>) returns (joins: bool)
      requires LinksOk() && Live(Tables(), link)
      requires identity.Some? ==> Codec.PublicKeyFault(group.p.onCurve, identity.value).None?
      modifies this`links, this`linksByIdentity, this`outbox
      ensures SameIdentity(old(links[link.peerId]), identity) ==> LinksOk()
      ensures Tables() == Connected(Context(), old(Tables()), link.peerId, identity)
      ensures joins == (author && !Refuses(Context(), old(Tables()), link.peerId, identity) && identity.value !in Keys(members))
      ensures outbox == old(outbox) + Greeting(Context(), old(Tables()), link.peerId, identity, localDisplayName)
    {
      if SameIdentity(links[link.peerId], identity) {
        ConnectedKeeps(Context(), Tables(), link.peerId, identity);
      }
      ConnectedSerials(Context(), Tables(), link.peerId, identity);
      joins := ConnectLink(link, identity);
    }

    /** `enqueueAuthorMutation`. */
    method Enqueue(task: Task)
      requires QueueOk() && TaskOk(task)
      modifies this`authorMutationQueue, this`enqueued
      ensures QueueOk() && authorMutationQueue == old(authorMutationQueue) + [task] && enqueued == old(enqueued) + [task]
    {
      authorMutationQueue := authorMutationQueue + [task];
      enqueued := enqueued + [task];
    }

    /** The link side of `onLinkConnected`. */
    method ConnectLink(link: Ref, identity: Option<Bytes>) returns (joins: bool)
      requires Live(Tables(), link)
      modifies this`links, this`linksByIdentity, this`outbox
      ensures Tables() == Connected(Context(), old(Tables()), link.peerId, identity)
      ensures joins == (author && !Refuses(Context(), old(Tables()), link.peerId, identity) && identity.value !in Keys(members))
      ensures outbox == old(outbox) + Greeting(Context(), old(Tables()), link.peerId, identity, localDisplayName)
    {
      var bound := Bind(link, identity);
      if !bound {
        return false;
      }
      AnnounceDisplayName(link.peerId);
      joins := Meet(link, identity.value);
    }

    /** The link gets its identity, or is closed: without one, or as a second link of one. */
    method Bind(link: Ref, identity: Option<Bytes>) returns (bound: bool)
      requires Live(Tables(), link)
      modifies this`links, this`linksByIdentity
      ensures bound == (identity.Some? && !Occupied(old(Tables()), link.peerId, identity.value))
      ensures var put := Put(old(Tables()), link.peerId, old(links[link.peerId]).(peerIdentity := identity));
              Tables() == if identity.None? then Closed(old(Tables()), link.peerId)
                          else if bound then put else Closed(put, link.peerId)
    {
      if identity.None? {
        CloseLink(link);
        return false;
      }
      var occupied := identity.value in linksByIdentity && linksByIdentity[identity.value] != link;
      SetLink(link.peerId, links[link.peerId].(peerIdentity := identity));
      if occupied {
        CloseLink(link);
      }
      return !occupied;
    }

    method Meet(link: Ref, keyId: Bytes) returns (joins: bool)
      requires Live(Tables(), link)
      modifies this`links, this`linksByIdentity, this`outbox
      ensures joins == (author && keyId !in Keys(members) && |members| < group.cap)
      ensures Tables() == Met(Context(), old(Tables()), link.peerId, keyId)
      ensures outbox == old(outbox) + Request(Context(), old(Tables()), link.peerId, keyId)
    {
      if author {
        joins := AuthorSeats(link, keyId);
      } else {
        MemberMeets(link, keyId);
        joins := false;
      }
    }

    /** `announceDisplayName`. */
    method AnnounceDisplayName(peerId: PeerId)
      modifies this`outbox
      ensures outbox == old(outbox) + Announcement(peerId, localDisplayName)
    {
      if localDisplayName == [] {
        return;
      }
      outbox := outbox + [NameTo(peerId, localDisplayName)];
    }

    /** A member's half: a listed peer is verified; otherwise its link is asked for the list. */
    method MemberMeets(link: Ref, keyId: Bytes)
      requires Live(Tables(), link)
      modifies this`links, this`linksByIdentity, this`outbox
      ensures Tables() == if membershipValue.Some? && keyId in Keys(members) then Verified(old(Tables()), link.peerId, keyId)
                          else Put(old(Tables()), link.peerId,
                                   old(links[link.peerId]).(unlisted := old(links[link.peerId]).unlisted || membershipValue.Some?,
                                                            membershipRequested := true))
      ensures outbox == old(outbox)
                + if (membershipValue.Some? && keyId in Keys(members)) || old(links[link.peerId]).membershipRequested then []
                  else [RequestTo(link.peerId)]
    {
      if membershipValue.Some? {
        if keyId in Keys(members) {
          MarkVerified(link, keyId);
          return;
        }
        SetLink(link.peerId, links[link.peerId].(unlisted := true));
      }
      AskOnce(link);
    }

    /** The author's half: a member re-links, a newcomer joins if there is a seat. */
    method AuthorSeats(link: Ref, keyId: Bytes) returns (joins: bool)
      requires author && Live(Tables(), link)
      modifies this`links, this`linksByIdentity
      ensures joins == (keyId !in Keys(members) && |members| < group.cap)
      ensures Tables() == if keyId in Keys(members) || joins then Verified(old(Tables()), link.peerId, keyId)
                          else Closed(old(Tables()), link.peerId)
    {
      if keyId in Keys(members) {
        MarkVerified(link, keyId);
        return false;
      }
      if |members| >= group.cap {
        CloseLink(link);
        return false;
      }
      MarkVerified(link, keyId);
      return true;
    }

    /** `requestMembershipOnLink` up to its await. */
    method AskOnce(link: Ref)
      requires Live(Tables(), link)
      modifies this`links, this`outbox
      ensures Tables() == Put(old(Tables()), link.peerId, old(links[link.peerId]).(membershipRequested := true))
      ensures outbox == old(outbox) + if old(links[link.peerId]).membershipRequested then [] else [RequestTo(link.peerId)]
    {
      if links[link.peerId].membershipRequested {
        assert links == links[link.peerId := links[link.peerId].(membershipRequested := true)];
        return;
      }
      SetLink(link.peerId, links[link.peerId].(membershipRequested := true));
      outbox := outbox + [RequestTo(link.peerId)];
    }

    /** The request could not be sent: the latch opens again. */
    method RequestFailed(link: Ref)
      requires LinksOk()
      modifies this`links
      ensures LinksOk()
      ensures links == if link.peerId in old(links) && old(links[link.peerId]).serial == link.serial
                       then old(links)[link.peerId := old(links[link.peerId]).(membershipRequested := false)] else old(links)
    {
      if Live(Tables(), link) {
        RequestedKeeps(Context(), Tables(), link.peerId, false);
        SetLink(link.peerId, links[link.peerId].(membershipRequested := false));
      }
    }

    /** A link's orchestrator changed state. */
    method OnStateChange(peerId: PeerId, state: LinkState)
      requires LinksOk() && QueueOk()
      requires state.IsConnected? && state.identity.Some? ==>
                 Codec.PublicKeyFault(group.p.onCurve, state.identity.value).None?
      modifies this`links, this`linksByIdentity, this`authorMutationQueue, this`enqueued, this`outbox
      ensures peerId !in old(links) || !state.IsConnected? || SameIdentity(old(links[peerId]), state.identity) ==> LinksOk()
      ensures QueueOk()
      ensures Tables() == StateChanged(Context(), old(Tables()), peerId, state)
      ensures state.IsDisconnected? ==> links == old(links) - {peerId}
      ensures if state.IsConnected? && peerId in old(links)
              then Connects(old(Tables()), old(authorMutationQueue), old(outbox), peerId, state.identity)
              else authorMutationQueue == old(authorMutationQueue) && outbox == old(outbox)
    {
      if peerId !in links {
        return;
      }
      if state.IsConnected? {
        OnConnected(peerId, state.identity);
      } else {
        OnOtherState(peerId, state);
      }
    }

    method OnOtherState(peerId: PeerId, state: LinkState)
      requires LinksOk() && peerId in links && !state.IsConnected?
      modifies this`links, this`linksByIdentity
      ensures LinksOk() && Tables() == StateChanged(Context(), old(Tables()), peerId, state)
      ensures state.IsDisconnected? ==> links == old(links) - {peerId}
    {
      Observe(peerId, false);
      if state.IsDisconnected? {
        DropLink(peerId);
      }
    }

    /** What a connected report leaves behind: the link is bound, verified, closed or asked, a peer let in by the
        author is queued to join, and the greeting is out. */
    ghost predicate Connects(before: Links, queue: seq<Task>, sent: seq<Sent>, peerId: PeerId, identity: Option<Bytes>)
      requires peerId in before.table
      reads this`links, this`linksByIdentity, this`authorMutationQueue, this`outbox, this`membershipValue, this`members
      reads this`localDisplayName
    {
      var u := Put(before, peerId, before.table[peerId].(connected := true));
      Tables() == Connected(Context(), u, peerId, identity)
      && authorMutationQueue == queue
           + (if author && identity.Some? && identity.value !in Keys(members) && |members| < group.cap
                 && (identity.value in before.index ==> before.index[identity.value] == Ref(peerId, before.table[peerId].serial))
              then [AddTask(Ref(peerId, before.table[peerId].serial))] else [])
      && outbox == sent + Greeting(Context(), u, peerId, identity, localDisplayName)
    }

    method OnConnected(peerId: PeerId, identity: Option<Bytes>)
      requires LinksOk() && QueueOk() && peerId in links
      requires identity.Some? ==> Codec.PublicKeyFault(group.p.onCurve, identity.value).None?
      modifies this`links, this`linksByIdentity, this`authorMutationQueue, this`enqueued, this`outbox
      ensures SameIdentity(old(links[peerId]), identity) ==> LinksOk()
      ensures QueueOk() && Connects(old(Tables()), old(authorMutationQueue), old(outbox), peerId, identity)
    {
      Observe(peerId, true);
      OnLinkConnected(peerId, identity);
    }

    method Observe(peerId: PeerId, connected: bool)
      requires LinksOk() && peerId in links
      modifies this`links
      ensures LinksOk() && Tables() == Put(old(Tables()), peerId, old(links[peerId]).(connected := connected))
    {
      StateKeeps(Context(), Tables(), peerId, connected);
      SetLink(peerId, links[peerId].(connected := connected));
    }

    /** The pending-verify timer of `link` fires. An unverified live link goes. */
    method OnPendingVerifyTimeout(link: Ref)
      requires LinksOk()
      modifies this`links, this`linksByIdentity
      ensures LinksOk()
      ensures Tables() == if Live(old(Tables()), link) && !old(links[link.peerId]).verified
                          then Closed(old(Tables()), link.peerId) else old(Tables())
    {
      if closed || !Live(Tables(), link) || links[link.peerId].verified {
        return;
      }
      DroppedKeeps(Context(), Tables(), link.peerId);
      CloseLink(link);
    }

    /** Whose content a frame of this link is attributed to, if it is shown at all: on a member, only
        an identity on its current list. */
    method Attributed(peerId: PeerId) returns (sender: Option<Bytes>)
      requires Valid()
      ensures sender.Some? && !author ==> membershipValue.Some? && sender.value in Keys(membershipValue.value.members)
      ensures sender.Some? <==> peerId in links && links[peerId].verified
      ensures sender.Some? ==> links[peerId].peerIdentity == sender
    {
      assert peerId in links ==> Stands(Context(), Tables().table[peerId]);
      if peerId !in links || links[peerId].peerIdentity.None? || !links[peerId].verified {
        return None;
      }
      return links[peerId].peerIdentity;
    }

    /** `leave`. */
    method Leave()
      requires LinksOk()
      modifies this`closed, this`links, this`linksByIdentity
      ensures LinksOk() && closed && links == map[]
      ensures old(MemberOk()) ==> MemberOk()
    {
      if closed {
        return;
      }
      closed := true;
      CloseAll();
    }

    /** Its loop over a snapshot of the links. */
    method CloseAll()
      requires IndexOk(Tables())
      modifies this`links, this`linksByIdentity
      ensures links == map[] && linksByIdentity == map[]
    {
      var snapshot := links;
      var rest := snapshot.Keys;
      while rest != {}
        invariant IndexOk(Tables()) && rest <= snapshot.Keys && links.Keys == rest
        invariant forall q :: q in rest ==> links[q] == snapshot[q]
        decreases rest
      {
        var q :| q in rest;
        rest := rest - {q};
        ClosedKeeps(Tables(), q);
        CloseLink(Ref(q, snapshot[q].serial));
      }
      assert forall k :: k in linksByIdentity ==> Points(Tables(), k, linksByIdentity[k]);
    }

    // ----- A member's inbound lists -----

    /** `handleInboundMembership` up to the verification: exactly the lists of this group that the
        payload decodes to, and that would advance the epoch, go on to it. */
    method HandleInboundMembership(payload: Bytes) returns (ghost passed: Option<Membership>)
      requires MemberOk() && GroupOk(group)
      modifies this`verifying
      ensures MemberOk()
      ensures forall m :: passed == Some(m) <==>
                DecodesTo(group.p, payload, group.cap, m) && !closed && !author && m.groupId == group.id && m.epoch > epoch
      ensures verifying == old(verifying) + if passed.Some? then [passed.value] else []
    {
      if closed || author {
        return None;
      }
      var decoded := Decode(payload);
      if decoded.Err? {
        return None;
      }
      if decoded.value.groupId != group.id {
        return None;
      }
      if decoded.value.epoch <= epoch {
        return None;
      }
      StartVerifying(payload, decoded.value);
      return Some(decoded.value);
    }

    method Decode(payload: Bytes) returns (decoded: Result<Membership, GroupError>)
      ensures forall m :: decoded == Ok(m) <==> DecodesTo(group.p, payload, group.cap, m)
    {
      ghost var w;
      decoded, w := DecodeMembership(group.p, payload, group.cap);
      DecodedExactly(group.p, payload, group.cap, decoded, w);
    }

    method StartVerifying(ghost payload: Bytes, m: Membership)
      requires MemberOk() && GroupOk(group) && !author
      requires DecodesTo(group.p, payload, group.cap, m) && m.groupId == group.id
      modifies this`verifying
      ensures MemberOk() && verifying == old(verifying) + [m]
    {
      DecodedEncodable(group.p, payload, group.cap, m);
      verifying := verifying + [m];
    }

    /** The verification of the `at`-th list in flight returns: the gates are checked again, and the
        list is adopted if it passes. */
    method VerifyDone(at: nat)
      requires LinksOk() && MemberOk() && !author && at < |verifying|
      modifies this`verifying, this`links, this`linksByIdentity, this`members, this`epoch, this`membershipValue
      modifies this`pinnedAuthorKey, this`adopted, this`closed, this`outbox
      ensures LinksOk() && MemberOk()
      ensures var m := old(verifying[at]);
              Core() == if Verifies(group.p, verify, m) then Deliver(group.self, old(Core()), m) else old(Core())
      ensures var m := old(verifying[at]);
              if Verifies(group.p, verify, m) && !old(closed) && m.epoch > old(epoch)
                 && (old(pinnedAuthorKey).None? || old(pinnedAuthorKey).value == AuthorKey(m.members))
              then epoch == m.epoch && members == m.members && membershipValue == Some(m)
                   && pinnedAuthorKey == Some(AuthorKey(m.members))
                   && (closed <==> group.self in Keys(old(members)) && group.self !in Keys(m.members))
              else Core() == old(Core()) && membershipValue == old(membershipValue)
      ensures Core() == old(Core()) ==> Tables() == old(Tables())
      ensures Core() != old(Core()) && !closed ==>
                links.Keys == Surviving(old(Context()), old(Tables()), Keys(members))
    {
      var m := verifying[at];
      assert m in verifying && Received(m);
      verifying := Removed(verifying, at);
      var ok := VerifyMembership(group.p, verify, m);
      if ok.Err? {
        assert false;
      } else if !ok.value {
        return;
      }
      if closed || m.epoch <= epoch {
        return;
      }
      var authorEntry := AuthorEntries(m.members)[0];
      if pinnedAuthorKey.Some? && pinnedAuthorKey.value != authorEntry.identityPub {
        return;
      }
      AdoptMembership(m);
    }

    /** `adoptMembership`. */
    method AdoptMembership(m: Membership)
      requires LinksOk() && MemberOk() && !author && !closed && Received(m) && Adopts(Core(), m)
      modifies this`links, this`linksByIdentity, this`members, this`epoch, this`membershipValue
      modifies this`pinnedAuthorKey, this`adopted, this`closed, this`outbox
      ensures LinksOk() && MemberOk()
      ensures Core() == Deliver(group.self, old(Core()), m) && membershipValue == Some(m)
      ensures !closed ==> links.Keys == Surviving(old(Context()), old(Tables()), Keys(m.members))
    {
      var prev := members;
      ghost var context, tables := Context(), Tables();
      TakeList(m);
      var removed := RemovedMembers(prev, m.members);
      Relink(context, tables, prev, removed);
      MinusIs(prev, Keys(m.members));
      LeaveOrAsk(removed);
    }

    /** A member the new list drops leaves; one it does not name yet asks again. */
    method LeaveOrAsk(removed: seq<Member>)
      requires LinksOk() && MemberOk() && !author && !closed
      modifies this`links, this`linksByIdentity, this`closed, this`outbox
      ensures LinksOk() && MemberOk() && Core() == old(Core()).(closed := group.self in Keys(removed))
      ensures !closed ==> if group.self in Keys(members) then links == old(links) && outbox == old(outbox)
                          else AskedBut(links, outbox, {}, old(links), old(outbox))
    {
      if group.self in Keys(removed) {
        Leave();
      } else if group.self !in Keys(members) {
        AskAll();
      }
    }

    /** The list is replaced as a whole; the first one pins its author. */
    method TakeList(m: Membership)
      requires MemberOk() && !author && !closed && Received(m) && Adopts(Core(), m)
      modifies this`members, this`epoch, this`membershipValue, this`pinnedAuthorKey, this`adopted
      ensures MemberOk() && membershipValue == Some(m)
      ensures Core() == Deliver(group.self, old(Core()), m).(closed := false)
    {
      DeliverKeeps(group.self, Core(), m);
      if pinnedAuthorKey.None? {
        pinnedAuthorKey := Some(AuthorEntries(m.members)[0].identityPub);
      }
      members := m.members;
      epoch := m.epoch;
      membershipValue := Some(m);
      adopted := adopted + [Listing(m.epoch, m.members)];
    }

    /** The links are brought in line with the list just taken: those of removed members go, and the
        others are held against it. */
    method Relink(ghost before: Context, ghost tables: Links, prev: seq<Member>, removed: seq<Member>)
      requires GroupOk(group) && !author && !closed && membershipValue.Some?
      requires tables == Tables() && LinksInv(before, tables) && before.p == group.p && before.cap == group.cap && !before.author
      requires removed == RemovedMembers(prev, members)
      requires forall q :: q in links ==> links[q].serial < made
      modifies this`links, this`linksByIdentity
      ensures LinksOk() && links.Keys == Surviving(before, tables, Keys(members))
    {
      DiffsExact(prev, members);
      RelinkTables(removed, Keys(members));
      AdoptionOutcome(before, Context(), tables, removed, Tables());
    }

    method RelinkTables(removed: seq<Member>, keys: set<Bytes>)
      requires IndexOk(Tables())
      modifies this`links, this`linksByIdentity
      ensures Reconciled(keys, WithoutRemoved(old(Tables()), removed), Tables())
    {
      WithoutRemovedIndex(Tables(), removed);
      CloseRemoved(removed);
      ReconcileAll(keys);
    }

    method CloseRemoved(removed: seq<Member>)
      modifies this`links, this`linksByIdentity
      ensures Tables() == WithoutRemoved(old(Tables()), removed)
    {
      for i := 0 to |removed|
        invariant Tables() == WithoutRemoved(old(Tables()), removed[..i])
      {
        assert removed[..i + 1][..i] == removed[..i];
        var keyId := removed[i].identityPub;
        if keyId in linksByIdentity {
          CloseLink(linksByIdentity[keyId]);
        }
      }
      assert removed[..|removed|] == removed;
    }

    /** The loop over a snapshot of the links, in any order. */
    method ReconcileAll(keys: set<Bytes>)
      requires IndexOk(Tables())
      modifies this`links, this`linksByIdentity
      ensures Reconciled(keys, old(Tables()), Tables())
    {
      var snapshot := links;
      var rest := snapshot.Keys;
      while rest != {}
        invariant rest <= snapshot.Keys && Between(keys, old(Tables()), Tables(), rest)
        decreases rest
      {
        var q :| q in rest;
        BetweenStep(keys, old(Tables()), Tables(), rest, q);
        rest := rest - {q};
        if q !in links || links[q].serial != snapshot[q].serial {
          assert false;
        }
        ReconcileOne(keys, Ref(q, links[q].serial));
      }
    }

    method ReconcileOne(keys: set<Bytes>, link: Ref)
      requires Live(Tables(), link)
      modifies this`links, this`linksByIdentity
      ensures Tables() == ReconciledOne(keys, old(Tables()), link.peerId)
    {
      var record := links[link.peerId];
      if record.peerIdentity.None? {
        return;
      }
      if record.peerIdentity.value in keys {
        if !record.verified {
          MarkVerified(link, record.peerIdentity.value);
        }
        return;
      }
      if !record.verified && !record.unlisted {
        SetLink(link.peerId, record.(unlisted := true));
        return;
      }
      CloseLink(link);
    }

    /** A member the list does not name yet asks every connected peer again. */
    method AskAll()
      requires LinksOk()
      modifies this`links, this`outbox
      ensures LinksOk() && AskedBut(links, outbox, {}, old(links), old(outbox))
    {
      var rest := links.Keys;
      while rest != {}
        invariant LinksOk() && AskedBut(links, outbox, rest, old(links), old(outbox)) && rest <= links.Keys
        decreases rest
      {
        var q :| q in rest;
        AskTurn(q, rest, old(links), old(outbox));
        rest := rest - {q};
      }
    }

    method AskTurn(q: PeerId, ghost rest: set<PeerId>, ghost before: map<PeerId, GroupLink>, ghost sent: seq<Sent>)
      requires LinksOk() && q in rest && q in links && AskedBut(links, outbox, rest, before, sent)
      modifies this`links, this`outbox
      ensures LinksOk() && AskedBut(links, outbox, rest - {q}, before, sent)
    {
      AskedNext(links, outbox, rest, before, sent, q);
      if links[q].connected {
        AskAgain(q);
      }
    }

    method AskAgain(q: PeerId)
      requires LinksOk() && q in links
      modifies this`links, this`outbox
      ensures LinksOk() && links == old(links)[q := old(links[q]).(membershipRequested := true)]
      ensures outbox == old(outbox) + [RequestTo(q)]
    {
      RequestedKeeps(Context(), Tables(), q, true);
      SetLink(q, links[q].(membershipRequested := true));
      outbox := outbox + [RequestTo(q)];
    }

    // ----- The author's mutations -----

    /** `kickMember`. */
    method KickMember(key: Bytes) returns (r: Result<(), GroupError>)
      requires QueueOk()
      modifies this`authorMutationQueue, this`enqueued
      ensures QueueOk()
      ensures r == if !author then Err(NotAuthor) else if !closed && key == group.self then Err(MembershipInvalid) else Ok(())
      ensures authorMutationQueue == old(authorMutationQueue) + if r.Ok? && !closed then [KickTask(key)] else []
    {
      if !author {
        return Err(NotAuthor);
      }
      if closed {
        return Ok(());
      }
      if key == group.self {
        return Err(MembershipInvalid);
      }
      Enqueue(KickTask(key));
      return Ok(());
    }

    /** `updateDisplayName`: the new name is announced once on each connected link and nowhere else. */
    method UpdateDisplayName(name: Bytes) returns (r: Result<(), GroupError>)
      requires QueueOk() && |localDisplayName| <= MAX_MEMBER_DISPLAY_NAME
      modifies this`localDisplayName, this`authorMutationQueue, this`enqueued, this`outbox
      ensures QueueOk() && |localDisplayName| <= MAX_MEMBER_DISPLAY_NAME
      ensures r == if |name| > MAX_MEMBER_DISPLAY_NAME then Err(Malformed) else Ok(())
      ensures localDisplayName == if r.Ok? && !closed then name else old(localDisplayName)
      ensures authorMutationQueue == old(authorMutationQueue)
                + if author && r.Ok? && !closed && name != old(localDisplayName) then [RenameSelfTask(name)] else []
      ensures if r.Ok? && !closed && name != old(localDisplayName) then Announced(old(outbox), name) else outbox == old(outbox)
    {
      if |name| > MAX_MEMBER_DISPLAY_NAME {
        return Err(Malformed);
      }
      if name == localDisplayName {
        return Ok(());
      }
      if closed {
        return Ok(());
      }
      localDisplayName := name;
      AnnounceAll();
      if author {
        Enqueue(RenameSelfTask(name));
      }
      return Ok(());
    }

    /** What went out since `before` is the name, once on each connected link, or nothing if it is empty. */
    ghost predicate Announced(before: seq<Sent>, name: Bytes)
      reads this`outbox, this`links
    {
      before <= outbox
      && (forall i, j :: |before| <= i < j < |outbox| ==> outbox[i] != outbox[j])
      && (forall s :: s in outbox[|before|..] <==> name != [] && s.NameTo? && s.name == name && s.peer in links && links[s.peer].connected)
    }

    method AnnounceAll()
      modifies this`outbox
      ensures Announced(old(outbox), localDisplayName)
    {
      var rest := links.Keys;
      ghost var sent: seq<Sent> := [];
      while rest != {}
        invariant rest <= links.Keys && outbox == old(outbox) + sent
        invariant forall i, j :: 0 <= i < j < |sent| ==> sent[i] != sent[j]
        invariant forall s :: s in sent <==> (localDisplayName != [] && s.NameTo? && s.name == localDisplayName
                                             && s.peer in links.Keys - rest && links[s.peer].connected)
        decreases rest
      {
        var q :| q in rest;
        rest := rest - {q};
        if links[q].connected {
          AnnounceDisplayName(q);
          sent := sent + Announcement(q, localDisplayName);
        }
      }
    }

    /** The name `findMember` finds for an identity. */
    function NameOf(ms: seq<Member>, key: Bytes): Option<Bytes>
    {
      if ms == [] then None
      else if ms[0].identityPub == key then Some(ms[0].displayName)
      else NameOf(ms[1..], key)
    }

    /** An `identity_announcement` arrives on a link: the name is kept with the link, and an author
        queues it for the member's entry when it differs. */
    method OnAnnouncement(peerId: PeerId, payload: Bytes)
      requires LinksOk() && QueueOk() && peerId in links
      modifies this`links, this`authorMutationQueue, this`enqueued
      ensures LinksOk() && QueueOk()
      ensures var name := if 0 < |payload| <= MAX_MEMBER_DISPLAY_NAME then DecodeFatal(group.p.text, payload) else None;
              var link := old(links[peerId]);
              links == (if name.Some? then old(links)[peerId := link.(announcedName := name)] else old(links))
              && authorMutationQueue == old(authorMutationQueue)
                   + if author && name.Some? && link.peerIdentity.Some? && link.peerIdentity.value in Keys(members)
                        && NameOf(members, link.peerIdentity.value) != name
                     then [RenameTask(Ref(peerId, link.serial), link.peerIdentity.value, name.value)] else []
    {
      if |payload| == 0 || |payload| > MAX_MEMBER_DISPLAY_NAME {
        return;
      }
      var name := DecodeFatal(group.p.text, payload);
      if name.None? {
        return;
      }
      var link := links[peerId];
      Announce(peerId, name.value);
      if author && link.peerIdentity.Some? && link.peerIdentity.value in Keys(members)
         && NameOf(members, link.peerIdentity.value) != name
      {
        Enqueue(RenameTask(Ref(peerId, link.serial), link.peerIdentity.value, name.value));
      }
    }

    method Announce(peerId: PeerId, name: Bytes)
      requires LinksOk() && peerId in links && |name| <= MAX_MEMBER_DISPLAY_NAME
      modifies this`links
      ensures LinksOk() && links == old(links)[peerId := old(links[peerId]).(announcedName := Some(name))]
    {
      AnnouncedKeeps(Context(), Tables(), peerId, name);
      SetLink(peerId, links[peerId].(announcedName := Some(name)));
    }

    /** The list change a queued task asks for when its turn comes; none if the session has closed or
        the link it was queued for is gone. */
    function Due(task: Task): Option<Change>
      reads this`closed, this`links, this`linksByIdentity
    {
      if closed then None
      else match task
        case AddTask(link) =>
          if !Live(Tables(), link) || links[link.peerId].peerIdentity.None? then None
          else Some(Join(Member(links[link.peerId].peerIdentity.value, false,
                                if links[link.peerId].announcedName.Some? then links[link.peerId].announcedName.value else [])))
        case KickTask(key) => Some(Kick(key))
        case RenameTask(link, who, name) => if !Live(Tables(), link) then None else Some(Rename(who, name))
        case RenameSelfTask(name) => Some(Rename(group.self, name))
    }

    predicate Reaches(link: Ref)
      reads this`links
    {
      link.peerId in links && links[link.peerId].serial == link.serial
    }

    /** The list whose signing a queued mutation starts, by what the session holds when its turn comes. A
        newcomer needs a live authenticated link, a new identity and a seat, a kick a listed key, and a
        rename a live link and an entry with another name. */
    ghost function Started(task: Task): Option<Running>
      reads this`closed, this`links, this`members, this`epoch
    {
      if closed || epoch == UINT32_MAX then None
      else match task
        case AddTask(link) =>
          if Reaches(link) && links[link.peerId].peerIdentity.Some? && |members| < group.cap
             && (forall m :: m in members ==> m.identityPub != links[link.peerId].peerIdentity.value)
          then Some(Signing(members + [Member(links[link.peerId].peerIdentity.value, false,
                                              if links[link.peerId].announcedName.Some? then links[link.peerId].announcedName.value else [])],
                            None))
          else None
        case KickTask(key) =>
          if exists m :: m in members && m.identityPub == key then Some(Signing(Minus(members, {key}), Some(key))) else None
        case RenameTask(link, who, name) =>
          if Reaches(link) && exists m :: m in members && m.identityPub == who && m.displayName != name
          then Some(Signing(Renamed(members, who, name), None)) else None
        case RenameSelfTask(name) =>
          if exists m :: m in members && m.identityPub == group.self && m.displayName != name
          then Some(Signing(Renamed(members, group.self, name), None)) else None
    }

    lemma StartedIs(task: Task)
      requires TaskOk(task)
      ensures Started(task) == if closed || epoch == UINT32_MAX || Due(task).None? || Idle(members, group.cap, Due(task).value) then None
                               else Some(Signing(Changed(members, Due(task).value), if task.KickTask? then Some(task.key) else None))
    {
      if Due(task).Some? {
        IdleIs(members, group.cap, Due(task).value);
      }
    }

    lemma DueAdmissible(task: Task)
      requires LinksOk() && TaskOk(task) && Due(task).Some?
      ensures Admissible(group.p, group.self, Due(task).value)
    {
      if task.AddTask? {
        assert LinkFits(group.p, Tables().table[task.link.peerId]);
      }
    }

    /** The next queued mutation runs up to its signature, when the one before it has finished. If it
        has nothing to do, or the list would be full, it ends here, and a newcomer without a seat
        loses its link. */
    method StartNext()
      requires LinksOk() && AuthorOk() && QueueOk() && running.None? && authorMutationQueue != []
      modifies this`authorMutationQueue, this`taken, this`running, this`links, this`linksByIdentity, this`events
      ensures LinksOk() && AuthorOk() && QueueOk() && authorMutationQueue == old(authorMutationQueue)[1..]
      ensures taken == old(taken) + [old(authorMutationQueue[0])]
      ensures var c := old(Due(authorMutationQueue[0]));
              if c.None? then View() == old(View())
              else AuthorEnabled(group, old(View()), Begin(c.value)) && View() == AuthorNext(group, old(View()), Begin(c.value))
      ensures running == old(Started(authorMutationQueue[0]))
      ensures Tables() == if old(Overfull(authorMutationQueue[0]))
                          then DroppedRef(old(Tables()), old(authorMutationQueue[0]).link) else old(Tables())
    {
      var task := Dequeue();
      RunDue(task);
    }

    method RunDue(task: Task)
      requires LinksOk() && AuthorOk() && TaskOk(task) && running.None?
      modifies this`running, this`links, this`linksByIdentity, this`events
      ensures LinksOk() && AuthorOk()
      ensures var c := old(Due(task));
              if c.None? then View() == old(View())
              else AuthorEnabled(group, old(View()), Begin(c.value)) && View() == AuthorNext(group, old(View()), Begin(c.value))
      ensures running == old(Started(task))
      ensures Tables() == if old(Overfull(task)) then DroppedRef(old(Tables()), task.link) else old(Tables())
    {
      if Overfull(task) {
        ghost var change := Due(task).value;
        TurnAway(task);
        NothingToDo(change);
      } else {
        RunTask(task);
      }
    }

    lemma NothingToDo(c: Change)
      requires AuthorOk() && running.None? && Admissible(group.p, group.self, c) && Idle(members, group.cap, c)
      ensures AuthorEnabled(group, View(), Begin(c)) && AuthorNext(group, View(), Begin(c)) == View()
    {
    }

    /** A newcomer finds no seat: its link goes. */
    method TurnAway(task: Task)
      requires LinksOk() && TaskOk(task) && Overfull(task)
      modifies this`links, this`linksByIdentity
      ensures LinksOk() && Tables() == DroppedRef(old(Tables()), task.link)
      ensures old(Started(task)).None? && old(Due(task)).Some? && Admissible(group.p, group.self, old(Due(task)).value)
      ensures Idle(members, group.cap, old(Due(task)).value)
    {
      StartedIs(task);
      DueAdmissible(task);
      DropLink(task.link.peerId);
    }

    method Dequeue() returns (task: Task)
      requires QueueOk() && authorMutationQueue != []
      modifies this`authorMutationQueue, this`taken
      ensures QueueOk() && TaskOk(task) && [task] + authorMutationQueue == old(authorMutationQueue) && taken == old(taken) + [task]
      ensures task == old(authorMutationQueue[0]) && Due(task) == old(Due(authorMutationQueue[0]))
      ensures Started(task) == old(Started(authorMutationQueue[0]))
      ensures Overfull(task) == old(Overfull(authorMutationQueue[0])) && View() == old(View()) && Tables() == old(Tables())
    {
      task := authorMutationQueue[0];
      assert task in authorMutationQueue;
      authorMutationQueue := authorMutationQueue[1..];
      taken := taken + [task];
    }

    /** A newcomer whose turn comes when the list is full. */
    predicate Overfull(task: Task)
      reads this`closed, this`links, this`linksByIdentity, this`members
    {
      task.AddTask? && Due(task).Some? && Due(task).value.member.identityPub !in Keys(members) && |members| >= group.cap
    }

    method RunTask(task: Task)
      requires LinksOk() && AuthorOk() && TaskOk(task) && running.None? && !Overfull(task)
      modifies this`running, this`events
      ensures AuthorOk()
      ensures var c := Due(task);
              if c.None? then View() == old(View())
              else AuthorEnabled(group, old(View()), Begin(c.value)) && View() == AuthorNext(group, old(View()), Begin(c.value))
      ensures running == old(Started(task))
    {
      StartedIs(task);
      var change := Due(task);
      if change.Some? {
        DueAdmissible(task);
        if !Idle(members, group.cap, change.value) {
          ApplyMembershipChange(change.value);
        }
      }
    }

    /** `applyMembershipChange` up to the signature: the encoder refuses only an exhausted epoch. */
    method ApplyMembershipChange(change: Change)
      requires GroupOk(group) && AuthorOk() && running.None?
      requires Admissible(group.p, group.self, change) && !Idle(members, group.cap, change)
      modifies this`running, this`events
      ensures AuthorOk() && View() == AuthorNext(group, old(View()), Begin(change))
      ensures running == if epoch == UINT32_MAX then None
                         else Some(Signing(Changed(members, change), if change.Kick? then Some(change.key) else None))
    {
      var next := Changed(members, change);
      assert Current(View()) == Listing(epoch, members);
      NextListEncodes(group, firstName, events, View(), change);
      var body := EncodeMembershipBody(group.p, group.id, epoch + 1, next, group.cap);
      if body.Ok? {
        Suspend(change, next);
      }
    }

    /** The signature of the next list is being made. */
    method Suspend(change: Change, next: seq<Member>)
      requires AuthorOk() && running.None? && AuthorEnabled(group, View(), Begin(change))
      requires AuthorNext(group, View(), Begin(change)) == View().(signing := Some(next))
      modifies this`running, this`events
      ensures AuthorOk() && View() == old(View()).(signing := Some(next))
      ensures running == Some(Signing(next, if change.Kick? then Some(change.key) else None))
    {
      ReachedNext(group, firstName, events, View(), Begin(change));
      events := events + [Begin(change)];
      running := Some(Signing(next, if change.Kick? then Some(change.key) else None));
    }

    /** The signature of the next list is there, or failed. The list is taken, its epoch is the next,
        and it goes out on every connected link, also to a member it has just dropped. */
    method SignDone(ok: bool, signature: Bytes)
      requires LinksOk() && AuthorOk() && Next(running).Some? && author && |signature| == SIGNATURE_BYTES
      modifies this`running, this`members, this`epoch, this`membershipValue, this`outbox
      modifies this`history, this`signed, this`events
      ensures LinksOk() && AuthorOk()
      ensures View() == AuthorNext(group, old(View()), Commit(ok))
      ensures !ok ==> running.None? && membershipValue == old(membershipValue) && outbox == old(outbox)
      ensures ok ==> running == Some(Gossiping(old(running).value.removed))
      ensures ok ==> members == old(running).value.next && epoch == old(epoch) + 1
      ensures ok ==> membershipValue == Some(Membership(group.id, epoch, members, signature))
      ensures ok ==> Gossiped(old(outbox), membershipValue.value)
    {
      if !ok {
        Abandon();
        return;
      }
      CommitList(signature);
      Gossip(membershipValue.value);
    }

    method Abandon()
      requires AuthorOk() && Next(running).Some?
      modifies this`running, this`events
      ensures AuthorOk() && running.None? && View() == AuthorNext(group, old(View()), Commit(false))
    {
      ReachedNext(group, firstName, events, View(), Commit(false));
      events := events + [Commit(false)];
      running := None;
    }

    method CommitList(signature: Bytes)
      requires LinksOk() && AuthorOk() && Next(running).Some? && author && |signature| == SIGNATURE_BYTES
      modifies this`running, this`members, this`epoch, this`membershipValue, this`history, this`signed, this`events
      ensures LinksOk() && AuthorOk()
      ensures View() == AuthorNext(group, old(View()), Commit(true))
      ensures running == Some(Gossiping(old(running).value.removed))
      ensures members == old(running).value.next && epoch == old(epoch) + 1
      ensures membershipValue == Some(Membership(group.id, epoch, members, signature))
    {
      ghost var context := Context();
      TakeSigned(signature);
      AuthorContext(context, Context(), Tables());
    }

    method TakeSigned(signature: Bytes)
      requires AuthorOk() && Next(running).Some? && |signature| == SIGNATURE_BYTES
      modifies this`running, this`members, this`epoch, this`membershipValue, this`history, this`signed, this`events
      ensures AuthorOk()
      ensures View() == AuthorNext(group, old(View()), Commit(true))
      ensures running == Some(Gossiping(old(running).value.removed))
      ensures members == old(running).value.next && epoch == old(epoch) + 1
      ensures membershipValue == Some(Membership(group.id, epoch, members, signature))
    {
      ghost var v := View();
      ReachedNext(group, firstName, events, v, Commit(true));
      events := events + [Commit(true)];
      members := running.value.next;
      epoch := epoch + 1;
      history := history + [members];
      signed := signed + [Listing(epoch, members)];
      membershipValue := Some(Membership(group.id, epoch, members, signature));
      running := Some(Gossiping(running.value.removed));
      assert View() == AuthorView(v.history + [members], None, v.captured, v.signed + [Listing(|v.history| + 1, members)]);
    }

    /** What went out since `before` is the list, once on each connected link and nowhere else. */
    ghost predicate Gossiped(before: seq<Sent>, m: Membership)
      reads this`outbox, this`links
    {
      Framed(group.p, m) && before <= outbox
      && (forall s :: s in outbox[|before|..] ==>
            s.ListTo? && s.peer in links && links[s.peer].connected && s.payload == WireBytes(group.p, m))
      && (forall q :: q in links && links[q].connected ==> ListTo(q, WireBytes(group.p, m)) in outbox[|before|..])
    }

    /** `gossipMembership`. */
    method Gossip(m: Membership)
      requires GroupOk(group) && AuthorOk() && membershipValue == Some(m)
      modifies this`outbox
      ensures Gossiped(old(outbox), m)
    {
      CachedEncodes(m);
      var payload := EncodeMembership(group.p, m);
      var rest := links.Keys;
      ghost var sent: seq<Sent> := [];
      while rest != {}
        invariant rest <= links.Keys && outbox == old(outbox) + sent
        invariant forall s :: s in sent ==> s.ListTo? && s.peer in links && links[s.peer].connected && s.payload == payload.value
        invariant forall q :: q in links.Keys - rest && links[q].connected ==> ListTo(q, payload.value) in sent
        decreases rest
      {
        var q :| q in rest;
        rest := rest - {q};
        if links[q].connected {
          outbox := outbox + [ListTo(q, payload.value)];
          sent := sent + [ListTo(q, payload.value)];
        }
      }
    }

    /** The list an author holds as signed is one it signed, and encodes. */
    lemma CachedEncodes(m: Membership)
      requires GroupOk(group) && AuthorOk() && Cached(m, signed)
      ensures Encodable(group.p, m) && Listing(m.epoch, m.members) in signed
    {
      OneListPerEpoch(group, firstName, events, View(), Listing(m.epoch, m.members), Listing(m.epoch, m.members));
      EncoderAccepts(group.p, group.id, m.epoch, m.members, group.cap);
      EncoderAccepts(group.p, group.id, m.epoch, m.members, MAX_GROUP_MEMBERS_HARD);
    }

    /** The sends of a committed list are done: only now the link of a dropped member is closed. */
    method GossipDone()
      requires LinksOk() && running.Some? && running.value.Gossiping?
      modifies this`running, this`links, this`linksByIdentity
      ensures LinksOk() && running == Some(Hashing)
      ensures Tables() == WithoutRemoved(old(Tables()), if old(running).value.removed.Some?
                                                        then [Member(old(running).value.removed.value, false, [])] else [])
      ensures links == if old(running).value.removed.Some? && old(running).value.removed.value in old(linksByIdentity)
                       then old(links) - {old(linksByIdentity)[old(running).value.removed.value].peerId} else old(links)
    {
      var removed := running.value.removed;
      running := Some(Hashing);
      if removed.Some? {
        assert [Member(removed.value, false, [])][..0] == [];
        if removed.value in linksByIdentity {
          assert Points(Tables(), removed.value, linksByIdentity[removed.value]);
          DropLink(linksByIdentity[removed.value].peerId);
        }
      }
    }

    /** The group safety number is computed and the mutation is over. */
    method HashDone()
      requires running == Some(Hashing)
      modifies this`running
      ensures running.None?
    {
      running := None;
    }

    // ----- Answering requests for the list -----

    /** What went out since `before` is the list `m` on the link that asked, if that is still the peer's link
        and connected, and nothing otherwise. */
    ghost predicate Handed(link: Ref, m: Membership, before: seq<Sent>)
      reads this`outbox, this`links
    {
      Framed(group.p, m)
      && outbox == before + if link.peerId in links && links[link.peerId].serial == link.serial && links[link.peerId].connected
                            then [ListTo(link.peerId, WireBytes(group.p, m))] else []
    }

    /** Send a list on a link that is still live and connected. */
    method SendList(link: Ref, m: Membership)
      requires Encodable(group.p, m)
      modifies this`outbox
      ensures Handed(link, m, old(outbox))
    {
      var payload := EncodeMembership(group.p, m);
      if Live(Tables(), link) && links[link.peerId].connected {
        outbox := outbox + [ListTo(link.peerId, payload.value)];
      }
    }

    /** A member answers a request with the list it adopted, if it has one. */
    method AnswerAsMember(link: Ref)
      requires MemberOk() && !author
      modifies this`outbox
      ensures membershipValue.None? ==> outbox == old(outbox)
      ensures membershipValue.Some? ==> Handed(link, membershipValue.value, old(outbox))
    {
      if membershipValue.Some? {
        SendList(link, membershipValue.value);
      }
    }

    /** The author answers with its signed list; before the first one it signs the current list. */
    method AnswerAsAuthor(link: Ref)
      requires GroupOk(group) && AuthorOk()
      modifies this`outbox, this`answering, this`events
      ensures AuthorOk()
      ensures View() == if membershipValue.Some? then old(View()) else AuthorNext(group, old(View()), Capture)
      ensures membershipValue.None? ==>
                answering == old(answering) + [Answering(link, Listing(epoch, members))] && outbox == old(outbox)
      ensures membershipValue.Some? ==> Handed(link, membershipValue.value, old(outbox))
    {
      if membershipValue.Some? {
        CachedEncodes(membershipValue.value);
        SendList(link, membershipValue.value);
        return;
      }
      CurrentEncodes();
      var body := EncodeMembershipBody(group.p, group.id, epoch, members, group.cap);
      if body.Err? {
        assert false;
      }
      StartAnswer(link);
    }

    lemma CurrentEncodes()
      requires GroupOk(group) && AuthorOk()
      ensures BodyFault(group.p, group.id, epoch, members, group.cap).None?
    {
      ReachedInv(group, firstName, events, View());
      RosterEncodes(group.p, group.self, group.cap, members, group.id, epoch);
    }

    method StartAnswer(link: Ref)
      requires AuthorOk()
      modifies this`answering, this`events
      ensures AuthorOk() && View() == AuthorNext(group, old(View()), Capture)
      ensures answering == old(answering) + [Answering(link, Listing(epoch, members))]
    {
      ReachedNext(group, firstName, events, View(), Capture);
      events := events + [Capture];
      answering := answering + [Answering(link, Listing(epoch, members))];
      assert Listings(answering) == Listings(old(answering)) + [Listing(epoch, members)];
    }

    /** An on-demand signature is there, or failed. It never replaces a list of a later epoch. */
    method AnswerSigned(at: nat, ok: bool, signature: Bytes)
      requires GroupOk(group) && AuthorOk() && at < |answering| && |signature| == SIGNATURE_BYTES
      modifies this`answering, this`membershipValue, this`outbox, this`signed, this`events
      ensures AuthorOk()
      ensures |Listings(old(answering))| == |old(answering)| && View() == AuthorNext(group, old(View()), Answer(at, ok))
      ensures old(membershipValue).Some? ==> membershipValue.Some? && membershipValue.value.epoch >= old(membershipValue).value.epoch
      ensures ok && old(membershipValue).None? ==>
                membershipValue == Some(Membership(group.id, old(answering)[at].listing.epoch, old(answering)[at].listing.members, signature))
      ensures !ok ==> outbox == old(outbox) && membershipValue == old(membershipValue)
      ensures ok ==> Handed(old(answering)[at].link,
                            Membership(group.id, old(answering)[at].listing.epoch, old(answering)[at].listing.members, signature),
                            old(outbox))
    {
      var a := answering[at];
      RemoveAnswer(at, ok);
      if ok {
        var m := Membership(group.id, a.listing.epoch, a.listing.members, signature);
        KeepNewer(m);
        CachedEncodes(m);
        SendList(a.link, m);
      }
    }

    method KeepNewer(m: Membership)
      requires AuthorOk() && Cached(m, signed)
      modifies this`membershipValue
      ensures AuthorOk()
      ensures membershipValue == if old(membershipValue).None? || m.epoch > old(membershipValue).value.epoch then Some(m)
                                 else old(membershipValue)
    {
      if membershipValue.None? || m.epoch > membershipValue.value.epoch {
        membershipValue := Some(m);
      }
    }

    method RemoveAnswer(at: nat, ok: bool)
      requires AuthorOk() && at < |answering|
      modifies this`answering, this`signed, this`events
      ensures AuthorOk() && at < |old(View()).captured| && View() == AuthorNext(group, old(View()), Answer(at, ok))
      ensures ok ==> old(answering)[at].listing in signed
    {
      ReachedNext(group, firstName, events, View(), Answer(at, ok));
      events := events + [Answer(at, ok)];
      RemovedListing(answering, at);
      if ok {
        signed := signed + [answering[at].listing];
      }
      answering := Removed(answering, at);
    }
  }

  lemma RemovedListing(answering: seq<Answering>, at: nat)
    requires at < |answering|
    ensures Listings(Removed(answering, at)) == Removed(Listings(answering), at)
  {
  }

  /** When a queued change has nothing to do, written out. */
  lemma IdleIs(ms: seq<Member>, cap: int, c: Change)
    ensures Idle(ms, cap, c) <==> match c
              case Join(m) => (exists x :: x in ms && x.identityPub == m.identityPub) || |ms| >= cap
              case Kick(key) => forall x :: x in ms ==> x.identityPub != key
              case Rename(key, name) => forall x :: x in ms && x.identityPub == key ==> x.displayName == name
  {
  }
}
