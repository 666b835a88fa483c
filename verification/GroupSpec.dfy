/** The group protocol on values: what the author may sign, what a member adopts, and what every run
    of one honest author and any number of members keeps (`group/group-session.ts`). The class that
    carries out these steps is in GroupSession.dfy. */
module GroupSpec {
  import opened Bytes
  import opened Membership
  import Codec

  // ----- The author's list -----

  /** A list the author may sign: entries fit the wire, identities are distinct, only `self` is
      flagged as author, and the member cap holds. */
  predicate Roster(p: Platform, self: Bytes, cap: int, members: seq<Member>)
  {
    AllFit(p, members) && Distinct(members) && self in Keys(members) && |members| <= cap
    && forall i :: 0 <= i < |members| ==> (members[i].isAuthor <==> members[i].identityPub == self)
  }

  lemma {:induction false} CountedOnce(self: Bytes, members: seq<Member>)
    requires Distinct(members)
    requires forall i :: 0 <= i < |members| ==> (members[i].isAuthor <==> members[i].identityPub == self)
    ensures Authors(members) == if self in Keys(members) then 1 else 0
    ensures forall m :: m in AuthorEntries(members) ==> m.identityPub == self
  {
    if members != [] {
      var last := |members| - 1;
      CountedOnce(self, members[..last]);
      assert members == members[..last] + [members[last]];
      assert forall i :: 0 <= i < last ==> members[i].identityPub != members[last].identityPub;
    }
  }

  /** The encoder accepts a roster at every epoch that fits the wire, and at no other. */
  lemma RosterEncodes(p: Platform, self: Bytes, cap: int, members: seq<Member>, groupId: Bytes, epoch: int)
    requires Roster(p, self, cap, members) && cap <= MAX_GROUP_MEMBERS_HARD && |groupId| == GROUP_ID_BYTES
    ensures Proper(members) && AuthorKey(members) == self
    ensures BodyFault(p, groupId, epoch, members, cap).None? <==> Codec.IsUint32(epoch)
  {
    CountedOnce(self, members);
    EncoderAccepts(p, groupId, epoch, members, cap);
    assert AuthorEntries(members)[0] in AuthorEntries(members);
  }

  /** What the author's mutations do to the list. */
  datatype Change =
    | Join(member: Member)
    | Kick(key: Bytes)
    | Rename(who: Bytes, name: Bytes)

  function Renamed(members: seq<Member>, key: Bytes, name: Bytes): (r: seq<Member>)
    ensures |r| == |members|
    ensures forall i :: 0 <= i < |r| ==>
              r[i] == if members[i].identityPub == key then members[i].(displayName := name) else members[i]
  {
    if members == [] then []
    else
      var m := members[|members| - 1];
      Renamed(members[..|members| - 1], key, name) + [if m.identityPub == key then m.(displayName := name) else m]
  }

  function Changed(members: seq<Member>, c: Change): seq<Member>
  {
    match c
    case Join(m) => members + [m]
    case Kick(key) => Minus(members, {key})
    case Rename(key, name) => Renamed(members, key, name)
  }

  /** Whether the mutation, when its turn comes, finds nothing to do. */
  predicate Idle(members: seq<Member>, cap: int, c: Change)
  {
    match c
    case Join(m) => m.identityPub in Keys(members) || |members| >= cap
    case Kick(key) => key !in Keys(members)
    case Rename(key, name) =>
      forall i :: 0 <= i < |members| && members[i].identityPub == key ==> members[i].displayName == name
  }

  /** What the session checks before it queues a mutation. */
  predicate Admissible(p: Platform, self: Bytes, c: Change)
  {
    match c
    case Join(m) => Fits(p, m) && !m.isAuthor
    case Kick(key) => key != self
    case Rename(_, name) => |name| <= MAX_MEMBER_DISPLAY_NAME
  }

  lemma {:induction false} MinusSublist(members: seq<Member>, without: set<Bytes>)
    requires Distinct(members)
    ensures Distinct(Minus(members, without)) && |Minus(members, without)| <= |members|
  {
    if members != [] {
      var last := |members| - 1;
      MinusSublist(members[..last], without);
      MinusIs(members[..last], without);
      var before := Minus(members[..last], without);
      forall i | 0 <= i < |before| ensures before[i].identityPub != members[last].identityPub {
        assert before[i] in members[..last];
      }
    }
  }

  /** Every mutation turns a roster into a roster; joining adds one identity, kicking removes one,
      renaming moves none. */
  lemma ChangeKeepsRoster(p: Platform, self: Bytes, cap: int, members: seq<Member>, c: Change)
    requires Roster(p, self, cap, members) && Admissible(p, self, c) && !Idle(members, cap, c)
    ensures Roster(p, self, cap, Changed(members, c))
    ensures Keys(Changed(members, c)) == match c
              case Join(m) => Keys(members) + {m.identityPub}
              case Kick(key) => Keys(members) - {key}
              case Rename(_, _) => Keys(members)
  {
    var next := Changed(members, c);
    match c
    case Join(m) =>
      forall i | 0 <= i < |members| ensures members[i].identityPub in Keys(members) {}
      assert next[|members|] == m;
    case Kick(key) =>
      MinusIs(members, {key});
      MinusSublist(members, {key});
      forall i | 0 <= i < |next| ensures next[i] in members { assert next[i] in next; }
    case Rename(key, name) =>
      RenamedKeys(members, key, name);
      forall i | 0 <= i < |next| ensures Fits(p, next[i]) { assert Fits(p, members[i]); }
  }

  lemma RenamedKeys(members: seq<Member>, key: Bytes, name: Bytes)
    ensures Keys(Renamed(members, key, name)) == Keys(members)
  {
    var r := Renamed(members, key, name);
    forall i | 0 <= i < |members| ensures r[i].identityPub == members[i].identityPub && r[i] in r {}
  }

  // ----- The author's signing -----

  /** The content of one signed list. */
  datatype Listing = Listing(epoch: int, members: seq<Member>)

  /** The author's side: every list it has held (the one of epoch `e` at `e - 1`), the list being
      signed for the next epoch, the lists captured by on-demand signings still in flight, and what
      has been signed. */
  datatype AuthorView = AuthorView(
    history: seq<seq<Member>>,
    signing: Option<seq<Member>>,
    captured: seq<Listing>,
    signed: seq<Listing>)

  datatype AuthorEvent =
    | Begin(change: Change)
    | Commit(ok: bool)
    | Capture
    | Answer(at: nat, ok: bool)

  datatype Group = Group(p: Platform, id: Bytes, self: Bytes, cap: int)

  predicate GroupOk(g: Group)
  {
    |g.id| == GROUP_ID_BYTES && 2 <= g.cap <= MAX_GROUP_MEMBERS_HARD && Codec.PublicKeyFault(g.p.onCurve, g.self).None?
  }

  predicate Held(history: seq<seq<Member>>, l: Listing)
  {
    1 <= l.epoch <= |history| && l.members == history[l.epoch - 1]
  }

  predicate AuthorInv(g: Group, v: AuthorView)
  {
    1 <= |v.history| <= UINT32_MAX
    && (forall i :: 0 <= i < |v.history| ==> Roster(g.p, g.self, g.cap, v.history[i]))
    && (v.signing.Some? ==> Roster(g.p, g.self, g.cap, v.signing.value) && |v.history| < UINT32_MAX)
    && (forall i :: 0 <= i < |v.captured| ==> Held(v.history, v.captured[i]))
    && (forall i :: 0 <= i < |v.signed| ==> Held(v.history, v.signed[i]))
  }

  function Current(v: AuthorView): Listing
    requires v.history != []
  {
    Listing(|v.history|, v.history[|v.history| - 1])
  }

  function Removed<T>(s: seq<T>, at: nat): seq<T>
    requires at < |s|
  {
    s[..at] + s[at + 1..]
  }

  predicate AuthorEnabled(g: Group, v: AuthorView, e: AuthorEvent)
  {
    match e
    case Begin(c) => v.signing.None? && Admissible(g.p, g.self, c)
    case Commit(_) => v.signing.Some?
    case Capture => true
    case Answer(at, _) => at < |v.captured|
  }

  function AuthorNext(g: Group, v: AuthorView, e: AuthorEvent): AuthorView
    requires v.history != [] && AuthorEnabled(g, v, e)
  {
    match e
    case Begin(c) =>
      var members := Current(v).members;
      if Idle(members, g.cap, c) || |v.history| == UINT32_MAX then v else v.(signing := Some(Changed(members, c)))
    case Commit(ok) =>
      if !ok then v.(signing := None)
      else v.(history := v.history + [v.signing.value], signing := None,
              signed := v.signed + [Listing(|v.history| + 1, v.signing.value)])
    case Capture => v.(captured := v.captured + [Current(v)])
    case Answer(at, ok) =>
      v.(captured := Removed(v.captured, at), signed := if ok then v.signed + [v.captured[at]] else v.signed)
  }

  /** A session starts with a list holding only its author. */
  function Founded(self: Bytes, name: Bytes): AuthorView
  {
    AuthorView([[Member(self, true, name)]], None, [], [])
  }

  lemma FoundedKeeps(g: Group, name: Bytes)
    requires GroupOk(g) && |name| <= MAX_MEMBER_DISPLAY_NAME
    ensures AuthorInv(g, Founded(g.self, name))
  {
    var members := [Member(g.self, true, name)];
    assert members[0] in members;
    assert Roster(g.p, g.self, g.cap, members);
  }

  lemma AuthorNextKeeps(g: Group, v: AuthorView, e: AuthorEvent)
    requires AuthorInv(g, v) && AuthorEnabled(g, v, e)
    ensures AuthorInv(g, AuthorNext(g, v, e))
    ensures v.history <= AuthorNext(g, v, e).history && v.signed <= AuthorNext(g, v, e).signed
  {
    if e.Begin? && !Idle(Current(v).members, g.cap, e.change) {
      ChangeKeepsRoster(g.p, g.self, g.cap, Current(v).members, e.change);
    }
  }

  /** `v` is where the author stands after the steps `es`. */
  ghost predicate Reached(g: Group, name: Bytes, es: seq<AuthorEvent>, v: AuthorView)
    decreases |es|
  {
    if es == [] then v == Founded(g.self, name)
    else
      var last := |es| - 1;
      exists u :: Reached(g, name, es[..last], u) && u.history != [] && AuthorEnabled(g, u, es[last])
                  && v == AuthorNext(g, u, es[last])
  }

  lemma ReachedNext(g: Group, name: Bytes, es: seq<AuthorEvent>, v: AuthorView, e: AuthorEvent)
    requires Reached(g, name, es, v) && v.history != [] && AuthorEnabled(g, v, e)
    ensures Reached(g, name, es + [e], AuthorNext(g, v, e))
  {
    assert (es + [e])[..|es|] == es;
  }

  lemma {:induction false} ReachedInv(g: Group, name: Bytes, es: seq<AuthorEvent>, v: AuthorView)
    requires GroupOk(g) && |name| <= MAX_MEMBER_DISPLAY_NAME && Reached(g, name, es, v)
    ensures AuthorInv(g, v)
    decreases |es|
  {
    if es == [] {
      FoundedKeeps(g, name);
    } else {
      var last := |es| - 1;
      var u :| Reached(g, name, es[..last], u) && u.history != [] && AuthorEnabled(g, u, es[last])
               && v == AuthorNext(g, u, es[last]);
      ReachedInv(g, name, es[..last], u);
      AuthorNextKeeps(g, u, es[last]);
    }
  }

  /** Over every interleaving of mutations and on-demand signings: the author never signs two
      different lists at one epoch, and every list it signs is proper, has the author itself as its
      one author entry, and is accepted by the encoder. */
  lemma OneListPerEpoch(g: Group, name: Bytes, es: seq<AuthorEvent>, v: AuthorView, l: Listing, m: Listing)
    requires GroupOk(g) && |name| <= MAX_MEMBER_DISPLAY_NAME && Reached(g, name, es, v)
    requires l in v.signed && m in v.signed
    ensures l.epoch == m.epoch ==> l.members == m.members
    ensures Proper(l.members) && AuthorKey(l.members) == g.self && |l.members| <= g.cap
    ensures BodyFault(g.p, g.id, l.epoch, l.members, g.cap).None?
  {
    ReachedInv(g, name, es, v);
    assert Held(v.history, l) && Held(v.history, m);
    RosterEncodes(g.p, g.self, g.cap, l.members, g.id, l.epoch);
  }

  /** The encoder refuses the author's next list only when the epochs are used up. */
  lemma NextListEncodes(g: Group, name: Bytes, es: seq<AuthorEvent>, v: AuthorView, c: Change)
    requires GroupOk(g) && |name| <= MAX_MEMBER_DISPLAY_NAME && Reached(g, name, es, v)
    requires v.history != [] && Admissible(g.p, g.self, c) && !Idle(Current(v).members, g.cap, c)
    ensures BodyFault(g.p, g.id, |v.history| + 1, Changed(Current(v).members, c), g.cap).None? <==> |v.history| < UINT32_MAX
    ensures |v.history| <= UINT32_MAX
  {
    ReachedInv(g, name, es, v);
    ChangeKeepsRoster(g.p, g.self, g.cap, Current(v).members, c);
    RosterEncodes(g.p, g.self, g.cap, Changed(Current(v).members, c), g.id, |v.history| + 1);
  }

  // ----- A member's adoption -----

  /** What a member holds of the protocol; `adopted` is every list it ever adopted, in order. */
  datatype Core = Core(
    closed: bool,
    epoch: int,
    members: seq<Member>,
    pinned: Option<Bytes>,
    adopted: seq<Listing>)

  const JOINING: Core := Core(false, 0, [], None, [])

  /** The gates a decoded and verified list must pass after the verification returned. */
  predicate Adopts(c: Core, m: Membership)
    requires Authors(m.members) == 1
  {
    !c.closed && m.epoch > c.epoch && (c.pinned.Some? ==> c.pinned.value == AuthorKey(m.members))
  }

  /** Adoption: the list is taken as it is, the first one pins its author, and a member the list
      dropped leaves. */
  function Deliver(self: Bytes, c: Core, m: Membership): Core
    requires Authors(m.members) == 1
  {
    if !Adopts(c, m) then c
    else Core(self in Keys(c.members) && self !in Keys(m.members), m.epoch, m.members, Some(AuthorKey(m.members)),
              c.adopted + [Listing(m.epoch, m.members)])
  }

  predicate Rising(ls: seq<Listing>)
  {
    forall i, j :: 0 <= i < j < |ls| ==> ls[i].epoch < ls[j].epoch
  }

  predicate CoreInv(c: Core)
  {
    Rising(c.adopted)
    && (c.adopted == [] ==> c.pinned.None? && c.epoch == 0 && c.members == [])
    && (c.adopted != [] ==> c.pinned.Some? && c.adopted[|c.adopted| - 1] == Listing(c.epoch, c.members))
  }

  /** An adoption raises the epoch, and once a key is pinned it stays pinned. */
  lemma DeliverKeeps(self: Bytes, c: Core, m: Membership)
    requires CoreInv(c) && Authors(m.members) == 1 && m.epoch >= 0
    ensures CoreInv(Deliver(self, c, m))
    ensures c.pinned.Some? ==> Deliver(self, c, m).pinned == c.pinned
    ensures Deliver(self, c, m) != c ==> Deliver(self, c, m).epoch > c.epoch
  {
    forall i | 0 <= i < |c.adopted| ensures c.adopted[i].epoch <= c.epoch {}
  }

  // ----- One honest author, any number of members, any network -----

  datatype World = World(author: AuthorView, members: seq<Core>)

  /** `Arrives`: a payload that `who` decoded as `list` finished its verification with success. No
      event says how the payload travelled: it may be lost, repeated, reordered, or made up. */
  datatype Event =
    | AtAuthor(event: AuthorEvent)
    | Arrives(who: nat, self: Bytes, list: Membership)
    | Leaves(who: nat)

  /** The signature scheme: what verifies under the honest author's key is a body it signed. The key also
      signs handshake transcripts; `HandshakePeers.ListOrTranscript` says when one can be a list's body. */
  ghost predicate Unforged(g: Group, signed: seq<Listing>, m: Membership)
    requires Writable(g.p, m.groupId, m.epoch, m.members)
  {
    exists i :: 0 <= i < |signed| && Writable(g.p, g.id, signed[i].epoch, signed[i].members)
                && BodyBytes(g.p, g.id, signed[i].epoch, signed[i].members)
                   == BodyBytes(g.p, m.groupId, m.epoch, m.members)
  }

  ghost predicate Possible(g: Group, verify: Verify, w: World, e: Event)
  {
    match e
    case AtAuthor(a) => w.author.history != [] && AuthorEnabled(g, w.author, a)
    case Arrives(who, _, list) =>
      who < |w.members| && list.groupId == g.id && Verifies(g.p, verify, list)
      && (AuthorKey(list.members) == g.self ==> Unforged(g, w.author.signed, list))
    case Leaves(who) => who < |w.members|
  }

  ghost function Step(g: Group, verify: Verify, w: World, e: Event): World
    requires Possible(g, verify, w, e)
  {
    match e
    case AtAuthor(a) => w.(author := AuthorNext(g, w.author, a))
    case Arrives(who, self, list) => w.(members := w.members[who := Deliver(self, w.members[who], list)])
    case Leaves(who) => w.(members := w.members[who := w.members[who].(closed := true)])
  }

  predicate Follows(g: Group, signed: seq<Listing>, c: Core)
  {
    CoreInv(c) && (c.pinned == Some(g.self) ==> forall i :: 0 <= i < |c.adopted| ==> c.adopted[i] in signed)
  }

  ghost predicate WorldInv(g: Group, w: World)
  {
    AuthorInv(g, w.author) && forall i :: 0 <= i < |w.members| ==> Follows(g, w.author.signed, w.members[i])
  }

  lemma AdoptsSigned(g: Group, v: AuthorView, list: Membership)
    requires AuthorInv(g, v) && Writable(g.p, list.groupId, list.epoch, list.members)
    requires list.groupId == g.id && Unforged(g, v.signed, list)
    ensures Listing(list.epoch, list.members) in v.signed
  {
    var i :| 0 <= i < |v.signed| && Writable(g.p, g.id, v.signed[i].epoch, v.signed[i].members)
             && BodyBytes(g.p, g.id, v.signed[i].epoch, v.signed[i].members)
                == BodyBytes(g.p, list.groupId, list.epoch, list.members);
    SignedBodyInjective(g.p, g.id, v.signed[i].epoch, v.signed[i].members, list.groupId, list.epoch, list.members);
    assert v.signed[i] == Listing(list.epoch, list.members);
  }

  lemma StepKeeps(g: Group, verify: Verify, w: World, e: Event)
    requires WorldInv(g, w) && Possible(g, verify, w, e)
    ensures WorldInv(g, Step(g, verify, w, e))
  {
    match e
    case AtAuthor(a) =>
      AuthorNextKeeps(g, w.author, a);
    case Arrives(who, self, list) =>
      assert Follows(g, w.author.signed, w.members[who]);
      DeliverKeeps(self, w.members[who], list);
      if AuthorKey(list.members) == g.self {
        AdoptsSigned(g, w.author, list);
      }
    case Leaves(who) =>
      assert Follows(g, w.author.signed, w.members[who]);
  }

  lemma StepLater(g: Group, verify: Verify, w: World, e: Event)
    requires WorldInv(g, w) && Possible(g, verify, w, e)
    ensures var n := Step(g, verify, w, e);
            |n.members| == |w.members| && forall i :: 0 <= i < |w.members| ==> Later(w.members[i], n.members[i])
  {
    if e.Arrives? {
      assert Follows(g, w.author.signed, w.members[e.who]);
      DeliverKeeps(e.self, w.members[e.who], e.list);
    }
  }

  ghost predicate Trace(g: Group, verify: Verify, w: World, es: seq<Event>)
    decreases |es|
  {
    es == [] || (Possible(g, verify, w, es[0]) && Trace(g, verify, Step(g, verify, w, es[0]), es[1..]))
  }

  ghost function After(g: Group, verify: Verify, w: World, es: seq<Event>): World
    requires Trace(g, verify, w, es)
    decreases |es|
  {
    if es == [] then w else After(g, verify, Step(g, verify, w, es[0]), es[1..])
  }

  /** The pin of every member, and its epoch, over a run. */
  lemma {:induction false} RunKeeps(g: Group, verify: Verify, w: World, es: seq<Event>)
    requires WorldInv(g, w) && Trace(g, verify, w, es)
    ensures var z := After(g, verify, w, es);
            WorldInv(g, z) && |z.members| == |w.members|
    ensures var z := After(g, verify, w, es);
            forall i :: 0 <= i < |w.members| ==> Later(w.members[i], z.members[i])
    decreases |es|
  {
    if es != [] {
      var n := Step(g, verify, w, es[0]);
      StepKeeps(g, verify, w, es[0]);
      StepLater(g, verify, w, es[0]);
      RunKeeps(g, verify, n, es[1..]);
      var z := After(g, verify, w, es);
      forall i | 0 <= i < |w.members| ensures Later(w.members[i], z.members[i]) {
        assert Later(w.members[i], n.members[i]) && Later(n.members[i], z.members[i]);
      }
    }
  }

  /** `d` is a later state of the member that was in state `c`. */
  predicate Later(c: Core, d: Core)
  {
    c.adopted <= d.adopted && (c.pinned.Some? ==> d.pinned == c.pinned) && (c.closed ==> d == c)
  }

  /** A group just founded, and `n` members that hold nothing. */
  function Start(g: Group, name: Bytes, n: nat): World
  {
    World(Founded(g.self, name), seq(n, _ => JOINING))
  }

  /** What a member pinned to the honest author adopted, in order: lists that author signed, at
      strictly rising epochs. */
  predicate OnlySigned(g: Group, w: World)
  {
    forall c :: c in w.members && c.pinned == Some(g.self) ==>
      Rising(c.adopted) && forall l :: l in c.adopted ==> l in w.author.signed
  }

  /** Members pinned to the honest author that stand at one epoch hold one list. */
  predicate Agreed(g: Group, w: World)
  {
    forall c, d :: c in w.members && d in w.members && c.pinned == d.pinned == Some(g.self) ==>
      (c.epoch == d.epoch ==> c.members == d.members)
  }

  /** Group agreement, for any number of members and any run: over any network, and with lists
      signed by anyone else besides. */
  lemma Agreement(g: Group, verify: Verify, name: Bytes, n: nat, es: seq<Event>)
    requires GroupOk(g) && |name| <= MAX_MEMBER_DISPLAY_NAME
    requires Trace(g, verify, Start(g, name, n), es)
    ensures OnlySigned(g, After(g, verify, Start(g, name, n), es))
    ensures Agreed(g, After(g, verify, Start(g, name, n), es))
  {
    FoundedKeeps(g, name);
    RunKeeps(g, verify, Start(g, name, n), es);
    InvAgrees(g, After(g, verify, Start(g, name, n), es));
  }

  lemma InvAgrees(g: Group, w: World)
    requires WorldInv(g, w)
    ensures OnlySigned(g, w) && Agreed(g, w)
  {
    forall c | c in w.members && c.pinned == Some(g.self)
      ensures Held(w.author.history, Listing(c.epoch, c.members))
      ensures Rising(c.adopted) && forall l :: l in c.adopted ==> l in w.author.signed
    {
      var i :| 0 <= i < |w.members| && w.members[i] == c;
      HoldsHistory(g, w, i);
    }
  }

  /** A member pinned to the honest author holds the author's list of that epoch. */
  lemma HoldsHistory(g: Group, w: World, i: nat)
    requires WorldInv(g, w) && i < |w.members| && w.members[i].pinned == Some(g.self)
    ensures Held(w.author.history, Listing(w.members[i].epoch, w.members[i].members))
  {
    var c := w.members[i];
    assert Follows(g, w.author.signed, c);
    assert c.adopted[|c.adopted| - 1] in w.author.signed;
  }
}
