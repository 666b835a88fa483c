/** The signed member list of a group and its canonical codec (`group/membership.ts`). */
module Membership {
  import opened Bytes
  import opened Text
  import Codec

  const GROUP_ID_BYTES: int := Codec.CONVERSATION_ID_BYTES
  const MEMBER_ENTRY_FIXED_BYTES: int := Codec.PUBLIC_KEY_BYTES + 1 + 1
  const MEMBERSHIP_HEADER_BYTES: int := GROUP_ID_BYTES + 4 + 1
  const SIGNATURE_BYTES: int := Codec.SIGNATURE_BYTES
  const UINT8_MAX: int := 255
  const MAX_MEMBER_DISPLAY_NAME: int := 32
  const MAX_GROUP_MEMBERS_HARD: int := 16

  datatype GroupError =
    | Malformed
    | MembershipInvalid
    | MemberLimitReached
    | NotAuthor
    | InvalidKey(fault: Codec.ProtocolError)

  /** What the platform decides: which encoded points lie on the curve, and what is UTF-8. */
  datatype Platform = Platform(onCurve: Bytes -> bool, text: Utf8)

  datatype Member = Member(identityPub: Bytes, isAuthor: bool, displayName: Bytes)

  datatype Membership = Membership(groupId: Bytes, epoch: int, members: seq<Member>, signature: Bytes)

  // ----- Member lists -----

  function Keys(members: seq<Member>): set<Bytes>
  {
    set m | m in members :: m.identityPub
  }

  predicate Distinct(members: seq<Member>)
  {
    forall i, j :: 0 <= i < j < |members| ==> members[i].identityPub != members[j].identityPub
  }

  function Authors(members: seq<Member>): (n: nat)
    ensures n <= |members|
  {
    if members == [] then 0
    else Authors(members[..|members| - 1]) + if members[|members| - 1].isAuthor then 1 else 0
  }

  method CountAuthors(members: seq<Member>) returns (authors: nat)
    ensures authors == Authors(members)
  {
    authors := 0;
    for i := 0 to |members|
      invariant authors == Authors(members[..i])
    {
      assert members[..i + 1][..i] == members[..i];
      if members[i].isAuthor {
        authors := authors + 1;
      }
    }
    assert members[..|members|] == members;
  }

  /** One author flag: some entry carries it and no other does. */
  lemma {:induction false} OneAuthor(members: seq<Member>) returns (at: nat)
    requires Authors(members) == 1
    ensures at < |members| && members[at].isAuthor
    ensures forall i :: 0 <= i < |members| && i != at ==> !members[i].isAuthor
  {
    var last := |members| - 1;
    if members[last].isAuthor {
      at := last;
      NoAuthors(members[..last]);
      assert forall i :: 0 <= i < last ==> members[i] == members[..last][i];
    } else {
      at := OneAuthor(members[..last]);
      assert forall i :: 0 <= i < last ==> members[i] == members[..last][i];
    }
  }

  lemma {:induction false} NoAuthors(members: seq<Member>)
    ensures Authors(members) == 0 <==> forall i :: 0 <= i < |members| ==> !members[i].isAuthor
  {
    if members != [] {
      var last := |members| - 1;
      NoAuthors(members[..last]);
      assert forall i :: 0 <= i < last ==> members[i] == members[..last][i];
    }
  }

  /** A list the protocol allows: distinct identities and exactly one author entry. */
  predicate Proper(members: seq<Member>)
  {
    Distinct(members) && Authors(members) == 1
  }

  // ----- The wire form -----

  function Flags(m: Member): byte { if m.isAuthor then 1 else 0 }

  /** An entry the encoder can write. */
  predicate Fits(p: Platform, m: Member)
  {
    Codec.PublicKeyFault(p.onCurve, m.identityPub).None? && |m.displayName| <= MAX_MEMBER_DISPLAY_NAME
  }

  function EntryBytes(p: Platform, m: Member): (b: Bytes)
    requires Fits(p, m)
    ensures |b| == MEMBER_ENTRY_FIXED_BYTES + |m.displayName|
  {
    m.identityPub + [Flags(m)] + [|m.displayName|] + m.displayName
  }

  predicate AllFit(p: Platform, members: seq<Member>)
  {
    forall i :: 0 <= i < |members| ==> Fits(p, members[i])
  }

  function EntriesBytes(p: Platform, members: seq<Member>): (b: Bytes)
    requires AllFit(p, members)
    ensures |b| >= |members| * MEMBER_ENTRY_FIXED_BYTES
  {
    if members == [] then []
    else EntriesBytes(p, members[..|members| - 1]) + EntryBytes(p, members[|members| - 1])
  }

  predicate Writable(p: Platform, groupId: Bytes, epoch: int, members: seq<Member>)
  {
    |groupId| == GROUP_ID_BYTES && Codec.IsUint32(epoch) && |members| <= UINT8_MAX && AllFit(p, members)
  }

  function HeaderBytes(groupId: Bytes, epoch: uint32, count: byte): (b: Bytes)
    requires |groupId| == GROUP_ID_BYTES
    ensures |b| == MEMBERSHIP_HEADER_BYTES
  {
    groupId + Uint32Bytes(epoch) + [count]
  }

  /** The byte range the author signs. */
  function BodyBytes(p: Platform, groupId: Bytes, epoch: int, members: seq<Member>): Bytes
    requires Writable(p, groupId, epoch, members)
  {
    HeaderBytes(groupId, epoch, |members|) + EntriesBytes(p, members)
  }

  predicate Framed(p: Platform, m: Membership)
  {
    Writable(p, m.groupId, m.epoch, m.members) && |m.signature| == SIGNATURE_BYTES
  }

  function WireBytes(p: Platform, m: Membership): Bytes
    requires Framed(p, m)
  {
    BodyBytes(p, m.groupId, m.epoch, m.members) + m.signature
  }

  // ----- The wire form determines the list -----

  lemma EntryPrefixFree(p: Platform, a: Member, b: Member, x: Bytes, y: Bytes)
    requires Fits(p, a) && Fits(p, b)
    requires EntryBytes(p, a) + x == EntryBytes(p, b) + y
    ensures a == b && x == y
  {
    var u, v := EntryBytes(p, a) + x, EntryBytes(p, b) + y;
    assert a.identityPub == u[..65] == v[..65] == b.identityPub;
    assert Flags(a) == u[65] == v[65] == Flags(b);
    assert |a.displayName| == u[66] as int == v[66] as int == |b.displayName|;
    assert a.displayName == u[67..67 + |a.displayName|] == b.displayName;
    assert x == u[67 + |a.displayName|..] == y;
  }

  lemma Associative(a: Bytes, b: Bytes, c: Bytes)
    ensures a + (b + c) == a + b + c
  {
  }

  /** Two lists of one length written in front of anything are the same list and the same rest. */
  lemma {:induction false} EntriesPrefixFree(p: Platform, a: seq<Member>, b: seq<Member>, x: Bytes, y: Bytes)
    requires AllFit(p, a) && AllFit(p, b) && |a| == |b|
    requires EntriesBytes(p, a) + x == EntriesBytes(p, b) + y
    ensures a == b && x == y
    decreases |a|
  {
    if a != [] {
      var last := |a| - 1;
      var u, v := EntryBytes(p, a[last]) + x, EntryBytes(p, b[last]) + y;
      Associative(EntriesBytes(p, a[..last]), EntryBytes(p, a[last]), x);
      Associative(EntriesBytes(p, b[..last]), EntryBytes(p, b[last]), y);
      EntriesPrefixFree(p, a[..last], b[..last], u, v);
      EntryPrefixFree(p, a[last], b[last], x, y);
      assert a == a[..last] + [a[last]] && b == b[..last] + [b[last]];
    } else {
      assert EntriesBytes(p, a) + x == x && EntriesBytes(p, b) + y == y;
    }
  }

  lemma HeaderPrefixFree(g: Bytes, e: uint32, n: byte, h: Bytes, f: uint32, k: byte, x: Bytes, y: Bytes)
    requires |g| == |h| == GROUP_ID_BYTES
    requires HeaderBytes(g, e, n) + x == HeaderBytes(h, f, k) + y
    ensures g == h && e == f && n == k && x == y
  {
    var u, v := HeaderBytes(g, e, n) + x, HeaderBytes(h, f, k) + y;
    assert g == u[..16] == v[..16] == h;
    assert Uint32Bytes(e) == u[16..20] == v[16..20] == Uint32Bytes(f);
    Uint32Injective(e, f);
    assert n == u[20] == v[20] == k;
    assert x == u[21..] == v[21..] == y;
  }

  /** The body an author signs determines the group, the epoch and every member. */
  lemma SignedBodyInjective(p: Platform, g: Bytes, e: int, a: seq<Member>, h: Bytes, f: int, b: seq<Member>)
    requires Writable(p, g, e, a) && Writable(p, h, f, b)
    requires BodyBytes(p, g, e, a) == BodyBytes(p, h, f, b)
    ensures g == h && e == f && a == b
  {
    HeaderPrefixFree(g, e, |a|, h, f, |b|, EntriesBytes(p, a), EntriesBytes(p, b));
    assert EntriesBytes(p, a) + [] == EntriesBytes(p, b) + [];
    EntriesPrefixFree(p, a, b, [], []);
  }

  /** A payload is the wire form of at most one list. */
  lemma WireInjective(p: Platform, m: Membership, n: Membership)
    requires Framed(p, m) && Framed(p, n)
    requires WireBytes(p, m) == WireBytes(p, n)
    ensures m == n
  {
    var x, y := EntriesBytes(p, m.members) + m.signature, EntriesBytes(p, n.members) + n.signature;
    assert HeaderBytes(m.groupId, m.epoch, |m.members|) + x == WireBytes(p, m);
    assert HeaderBytes(n.groupId, n.epoch, |n.members|) + y == WireBytes(p, n);
    HeaderPrefixFree(m.groupId, m.epoch, |m.members|, n.groupId, n.epoch, |n.members|, x, y);
    EntriesPrefixFree(p, m.members, n.members, m.signature, n.signature);
  }

  // ----- Encoding -----

  function MemberFault(p: Platform, m: Member, seen: set<Bytes>): Option<GroupError>
  {
    if Codec.PublicKeyFault(p.onCurve, m.identityPub).Some? then
      Some(InvalidKey(Codec.PublicKeyFault(p.onCurve, m.identityPub).value))
    else if m.identityPub in seen then Some(MembershipInvalid)
    else if |m.displayName| > MAX_MEMBER_DISPLAY_NAME then Some(Malformed)
    else None
  }

  /** The fault of the first entry that has one. */
  function EntriesFault(p: Platform, members: seq<Member>): Option<GroupError>
  {
    if members == [] then None
    else
      var before := members[..|members| - 1];
      if EntriesFault(p, before).Some? then EntriesFault(p, before)
      else MemberFault(p, members[|members| - 1], Keys(before))
  }

  function BodyFault(p: Platform, groupId: Bytes, epoch: int, members: seq<Member>, maxMembers: int): Option<GroupError>
  {
    if |groupId| != GROUP_ID_BYTES then Some(Malformed)
    else if !Codec.IsUint32(epoch) then Some(Malformed)
    else if |members| == 0 || |members| > UINT8_MAX then Some(MembershipInvalid)
    else if |members| > maxMembers then Some(MemberLimitReached)
    else if Authors(members) != 1 then Some(MembershipInvalid)
    else EntriesFault(p, members)
  }

  lemma {:induction false} NoEntriesFault(p: Platform, members: seq<Member>)
    ensures EntriesFault(p, members).None? <==> AllFit(p, members) && Distinct(members)
  {
    if members != [] {
      var last := |members| - 1;
      NoEntriesFault(p, members[..last]);
      assert members == members[..last] + [members[last]];
    }
  }

  /** When the encoder accepts: the fields fit the wire, the list is proper and within the cap. */
  lemma EncoderAccepts(p: Platform, groupId: Bytes, epoch: int, members: seq<Member>, maxMembers: int)
    ensures BodyFault(p, groupId, epoch, members, maxMembers).None?
       <==> Writable(p, groupId, epoch, members) && Proper(members) && |members| <= maxMembers
  {
    NoEntriesFault(p, members);
  }

  lemma {:induction false} LaterFault(p: Platform, members: seq<Member>, i: nat)
    requires i <= |members| && EntriesFault(p, members[..i]).Some?
    ensures EntriesFault(p, members) == EntriesFault(p, members[..i])
    decreases |members| - i
  {
    if i < |members| {
      assert members[..i + 1][..i] == members[..i];
      LaterFault(p, members, i + 1);
    } else {
      assert members[..i] == members;
    }
  }

  method EncodeEntry(p: Platform, m: Member) returns (entry: Bytes)
    requires Fits(p, m)
    ensures entry == EntryBytes(p, m)
  {
    var out := new byte[MEMBER_ENTRY_FIXED_BYTES + |m.displayName|](_ => 0);
    SetBytes(out, 0, m.identityPub);
    assert out[..65] == m.identityPub;
    PutByte(out, Codec.PUBLIC_KEY_BYTES, Flags(m));
    PutByte(out, Codec.PUBLIC_KEY_BYTES + 1, |m.displayName|);
    SetBytes(out, Codec.PUBLIC_KEY_BYTES + 2, m.displayName);
    assert out[..] == out[..67 + |m.displayName|];
    return out[..];
  }

  lemma {:induction false} JoinedPrefix(parts: seq<Bytes>, i: nat)
    requires i <= |parts|
    ensures |Joined(parts[..i])| <= |Joined(parts)|
    decreases |parts| - i
  {
    if i < |parts| {
      assert parts[..i + 1][..i] == parts[..i];
      JoinedPrefix(parts, i + 1);
    } else {
      assert parts[..i] == parts;
    }
  }

  lemma OneMore(p: Platform, members: seq<Member>, i: nat)
    requires i < |members|
    ensures Keys(members[..i + 1]) == Keys(members[..i]) + {members[i].identityPub}
    ensures EntriesFault(p, members[..i]).None?
        ==> EntriesFault(p, members[..i + 1]) == MemberFault(p, members[i], Keys(members[..i]))
    ensures AllFit(p, members[..i]) && Fits(p, members[i]) ==> AllFit(p, members[..i + 1])
    ensures AllFit(p, members[..i]) && Fits(p, members[i])
        ==> EntriesBytes(p, members[..i + 1]) == EntriesBytes(p, members[..i]) + EntryBytes(p, members[i])
  {
    assert members[..i + 1][..i] == members[..i] && members[..i + 1] == members[..i] + [members[i]];
  }

  /** The loop that encodes every entry, stopping at the first fault. */
  method EncodeEntries(p: Platform, members: seq<Member>) returns (r: Result<seq<Bytes>, GroupError>, total: nat)
    ensures EntriesFault(p, members).Some? ==> r == Err(EntriesFault(p, members).value)
    ensures EntriesFault(p, members).None? ==> AllFit(p, members) && r.Ok?
    ensures r.Ok? ==> AllFit(p, members)
    ensures r.Ok? ==> Joined(r.value) == EntriesBytes(p, members) && total == |EntriesBytes(p, members)|
  {
    var entryBytes: seq<Bytes> := [];
    var seen: set<Bytes> := {};
    total := 0;
    for i := 0 to |members|
      invariant seen == Keys(members[..i]) && EntriesFault(p, members[..i]).None?
      invariant AllFit(p, members[..i])
      invariant Joined(entryBytes) == EntriesBytes(p, members[..i])
      invariant total == |EntriesBytes(p, members[..i])|
    {
      var member := members[i];
      OneMore(p, members, i);
      if MemberFault(p, member, seen).Some? {
        LaterFault(p, members, i + 1);
        return Err(MemberFault(p, member, seen).value), total;
      }
      seen := seen + {member.identityPub};
      var entry := EncodeEntry(p, member);
      assert (entryBytes + [entry])[..|entryBytes|] == entryBytes;
      entryBytes := entryBytes + [entry];
      total := total + |entry|;
    }
    assert members[..|members|] == members;
    return Ok(entryBytes), total;
  }

  /** The loop that copies the entries behind the header. */
  method PlaceEntries(out: array<byte>, start: nat, entryBytes: seq<Bytes>)
    requires out.Length == start + |Joined(entryBytes)|
    modifies out
    ensures out[..] == old(out[..start]) + Joined(entryBytes)
  {
    var offset := start;
    for i := 0 to |entryBytes|
      invariant offset == start + |Joined(entryBytes[..i])| <= out.Length
      invariant out[..offset] == old(out[..start]) + Joined(entryBytes[..i])
    {
      JoinedPrefix(entryBytes, i + 1);
      assert entryBytes[..i + 1][..i] == entryBytes[..i];
      SetBytes(out, offset, entryBytes[i]);
      offset := offset + |entryBytes[i]|;
    }
    assert entryBytes[..|entryBytes|] == entryBytes;
    assert out[..] == out[..offset];
  }

  method EncodeMembershipBody(p: Platform, groupId: Bytes, epoch: int, members: seq<Member>, maxMembers: int)
    returns (r: Result<Bytes, GroupError>)
    ensures BodyFault(p, groupId, epoch, members, maxMembers).Some?
        ==> r == Err(BodyFault(p, groupId, epoch, members, maxMembers).value)
    ensures BodyFault(p, groupId, epoch, members, maxMembers).None?
        ==> Writable(p, groupId, epoch, members) && r == Ok(BodyBytes(p, groupId, epoch, members))
  {
    if |groupId| != GROUP_ID_BYTES {
      return Err(Malformed);
    }
    if !Codec.IsUint32(epoch) {
      return Err(Malformed);
    }
    if |members| == 0 || |members| > UINT8_MAX {
      return Err(MembershipInvalid);
    }
    if |members| > maxMembers {
      return Err(MemberLimitReached);
    }
    var authors := CountAuthors(members);
    if authors != 1 {
      return Err(MembershipInvalid);
    }
    var entries, entriesLength := EncodeEntries(p, members);
    if entries.Err? {
      return Err(entries.error);
    }
    var out := new byte[MEMBERSHIP_HEADER_BYTES + entriesLength](_ => 0);
    SetBytes(out, 0, groupId);
    assert out[..16] == groupId;
    WriteUint32Be(out, GROUP_ID_BYTES, epoch);
    PutByte(out, GROUP_ID_BYTES + 4, |members|);
    PlaceEntries(out, MEMBERSHIP_HEADER_BYTES, entries.value);
    return Ok(out[..]);
  }

  predicate Encodable(p: Platform, m: Membership)
  {
    |m.signature| == SIGNATURE_BYTES
    && BodyFault(p, m.groupId, m.epoch, m.members, MAX_GROUP_MEMBERS_HARD).None?
  }

  /** `encodeMembership`; `encodeSignature` refuses any signature that is not 64 bytes. */
  method EncodeMembership(p: Platform, m: Membership) returns (r: Result<Bytes, GroupError>)
    ensures r.Ok? <==> Encodable(p, m)
    ensures r.Ok? ==> Framed(p, m) && r.value == WireBytes(p, m)
  {
    EncoderAccepts(p, m.groupId, m.epoch, m.members, MAX_GROUP_MEMBERS_HARD);
    if |m.signature| != SIGNATURE_BYTES {
      return Err(InvalidKey(Codec.InvalidLength));
    }
    var body := EncodeMembershipBody(p, m.groupId, m.epoch, m.members, MAX_GROUP_MEMBERS_HARD);
    if body.Err? {
      return body;
    }
    var out := new byte[|body.value| + SIGNATURE_BYTES](_ => 0);
    SetBytes(out, 0, body.value);
    assert out[..|body.value|] == body.value;
    SetBytes(out, |body.value|, m.signature);
    assert out[..] == out[..|body.value| + SIGNATURE_BYTES];
    return Ok(out[..]);
  }

  // ----- Decoding -----

  /** A member as the application sees it: the name went through the fatal text decoder. */
  function ShownMember(m: Member): Member
  {
    m.(displayName := StripBom(m.displayName))
  }

  function ShownMembers(members: seq<Member>): (s: seq<Member>)
    ensures |s| == |members|
    ensures forall i :: 0 <= i < |s| ==> s[i] == ShownMember(members[i])
  {
    if members == [] then [] else ShownMembers(members[..|members| - 1]) + [ShownMember(members[|members| - 1])]
  }

  function Shown(m: Membership): Membership
  {
    m.(members := ShownMembers(m.members))
  }

  lemma ShownKeeps(p: Platform, members: seq<Member>)
    ensures Keys(ShownMembers(members)) == Keys(members)
    ensures Authors(ShownMembers(members)) == Authors(members)
    ensures Distinct(ShownMembers(members)) <==> Distinct(members)
    ensures AllFit(p, members) ==> AllFit(p, ShownMembers(members))
  {
    var s := ShownMembers(members);
    ShownAuthors(members);
    ShownKeys(members);
    assert forall i :: 0 <= i < |s| ==> s[i].identityPub == members[i].identityPub;
  }

  lemma ShownKeys(members: seq<Member>)
    ensures Keys(ShownMembers(members)) == Keys(members)
  {
    var s := ShownMembers(members);
    forall i | 0 <= i < |members| ensures s[i].identityPub == members[i].identityPub && s[i] in s {
    }
  }

  lemma {:induction false} ShownAuthors(members: seq<Member>)
    ensures Authors(ShownMembers(members)) == Authors(members)
  {
    if members != [] {
      var last := |members| - 1;
      ShownAuthors(members[..last]);
      assert ShownMembers(members)[..last] == ShownMembers(members[..last]);
    }
  }

  /** Whether `payload` is the wire form of `w`, with every name valid UTF-8. */
  predicate Carries(p: Platform, payload: Bytes, w: Membership)
  {
    Framed(p, w) && WireBytes(p, w) == payload
    && forall i :: 0 <= i < |w.members| ==> p.text.wellFormed(w.members[i].displayName)
  }

  function Cap(maxMembers: int): int
  {
    if maxMembers <= MAX_GROUP_MEMBERS_HARD then maxMembers else MAX_GROUP_MEMBERS_HARD
  }

  /** Whether a payload is accepted under the cap, and as which list. */
  ghost predicate DecodesTo(p: Platform, payload: Bytes, maxMembers: int, m: Membership)
  {
    exists w :: Carries(p, payload, w) && Proper(w.members) && |w.members| <= Cap(maxMembers) && m == Shown(w)
  }

  lemma CarriedOnce(p: Platform, payload: Bytes, v: Membership, w: Membership)
    requires Carries(p, payload, v) && Carries(p, payload, w)
    ensures v == w
  {
    WireInjective(p, v, w);
  }

  lemma {:induction false} EntriesAppend(p: Platform, a: seq<Member>, b: seq<Member>)
    requires AllFit(p, a) && AllFit(p, b)
    ensures AllFit(p, a + b) && EntriesBytes(p, a + b) == EntriesBytes(p, a) + EntriesBytes(p, b)
    decreases |b|
  {
    if b == [] {
      assert a + b == a;
    } else {
      var last := |b| - 1;
      EntriesAppend(p, a, b[..last]);
      assert (a + b)[..|a| + last] == a + b[..last] && (a + b)[|a| + last] == b[last];
      Associative(EntriesBytes(p, a), EntriesBytes(p, b[..last]), EntryBytes(p, b[last]));
    }
  }

  /** Where the decoder stands after `|raw|` entries. */
  predicate At(p: Platform, payload: Bytes, raw: seq<Member>, offset: nat)
  {
    AllFit(p, raw) && MEMBERSHIP_HEADER_BYTES <= offset <= |payload|
    && payload[MEMBERSHIP_HEADER_BYTES..offset] == EntriesBytes(p, raw)
  }

  /** The length checks of `decodeMembership` before the loop. */
  predicate Roomy(payload: Bytes)
  {
    |payload| >= MEMBERSHIP_HEADER_BYTES + SIGNATURE_BYTES
    && |payload| - MEMBERSHIP_HEADER_BYTES - SIGNATURE_BYTES >= payload[GROUP_ID_BYTES + 4] as int * MEMBER_ENTRY_FIXED_BYTES
  }

  lemma CarriedHeader(p: Platform, payload: Bytes, w: Membership)
    requires Carries(p, payload, w)
    ensures Roomy(payload) && |w.members| == payload[GROUP_ID_BYTES + 4]
    ensures payload[..MEMBERSHIP_HEADER_BYTES] == HeaderBytes(w.groupId, w.epoch, |w.members|)
    ensures payload[MEMBERSHIP_HEADER_BYTES..] == EntriesBytes(p, w.members) + w.signature
  {
    assert payload[GROUP_ID_BYTES + 4] == HeaderBytes(w.groupId, w.epoch, |w.members|)[GROUP_ID_BYTES + 4];
  }

  /** If the payload carries a list at all, what was read so far is its beginning and what is left
      is the rest of it. */
  lemma ReadSoFar(p: Platform, payload: Bytes, w: Membership, raw: seq<Member>, offset: nat)
    requires Carries(p, payload, w) && At(p, payload, raw, offset) && |raw| <= |w.members|
    ensures raw == w.members[..|raw|]
    ensures payload[offset..] == EntriesBytes(p, w.members[|raw|..]) + w.signature
  {
    CarriedHeader(p, payload, w);
    var k := |raw|;
    assert w.members == w.members[..k] + w.members[k..];
    EntriesAppend(p, w.members[..k], w.members[k..]);
    var rest := EntriesBytes(p, w.members[k..]) + w.signature;
    var all := payload[MEMBERSHIP_HEADER_BYTES..];
    assert all == EntriesBytes(p, raw) + payload[offset..] by {
      assert all == payload[MEMBERSHIP_HEADER_BYTES..offset] + payload[offset..];
    }
    Associative(EntriesBytes(p, w.members[..k]), EntriesBytes(p, w.members[k..]), w.signature);
    EntriesPrefixFree(p, raw, w.members[..k], payload[offset..], rest);
  }

  lemma {:induction false} EntriesFirst(p: Platform, members: seq<Member>)
    requires AllFit(p, members) && members != []
    ensures EntriesBytes(p, members) == EntryBytes(p, members[0]) + EntriesBytes(p, members[1..])
  {
    assert members == [members[0]] + members[1..];
    assert [members[0]][..0] == [];
    EntriesAppend(p, [members[0]], members[1..]);
  }

  /** The fields of one entry, read from the front of `b`. */
  function EntryAt(b: Bytes): Member
    requires |b| >= MEMBER_ENTRY_FIXED_BYTES && |b| >= MEMBER_ENTRY_FIXED_BYTES + b[66] as int
  {
    Member(b[..65], b[65] % 2 != 0, b[67..67 + b[66] as int])
  }

  /** The checks on one entry that its framing must pass. */
  predicate EntryReadable(p: Platform, b: Bytes)
  {
    |b| >= MEMBER_ENTRY_FIXED_BYTES && Codec.PublicKeyFault(p.onCurve, b[..65]).None? && b[65] / 2 == 0
    && b[66] <= MAX_MEMBER_DISPLAY_NAME && |b| - MEMBER_ENTRY_FIXED_BYTES >= b[66] as int + SIGNATURE_BYTES
    && p.text.wellFormed(b[67..67 + b[66] as int])
  }

  lemma ReadableEntry(p: Platform, b: Bytes, m: Member, rest: Bytes)
    requires Fits(p, m) && b == EntryBytes(p, m) + rest && |rest| >= SIGNATURE_BYTES
    requires p.text.wellFormed(m.displayName)
    ensures EntryReadable(p, b) && EntryAt(b) == m
  {
    assert b[..65] == m.identityPub && b[65] == Flags(m) && b[66] == |m.displayName|;
    assert b[67..67 + b[66] as int] == m.displayName;
  }

  lemma ReadEntry(p: Platform, b: Bytes)
    requires EntryReadable(p, b)
    ensures Fits(p, EntryAt(b)) && EntryBytes(p, EntryAt(b)) == b[..67 + b[66] as int]
  {
    assert b[..67 + b[66] as int] == b[..65] + [b[65]] + [b[66]] + b[67..67 + b[66] as int];
  }

  /** One entry of `decodeMembership`, at `offset`, up to the duplicate check: its framing. */
  method DecodeEntry(p: Platform, payload: Bytes, start: nat)
    returns (r: Option<Member>, end: nat, ghost written: Member)
    requires start <= |payload|
    ensures r.None? <==> !EntryReadable(p, payload[start..])
    ensures r.Some? ==> EntryIs(p, payload, start, written, end) && r.value == ShownMember(written)
  {
    var offset := start;
    ghost var b := payload[start..];
    end, written := start, Member([], false, []);
    if |payload| - offset < MEMBER_ENTRY_FIXED_BYTES {
      return None, end, written;
    }
    var identityPub := payload[offset..offset + Codec.PUBLIC_KEY_BYTES];
    assert identityPub == b[..65];
    if Codec.PublicKeyFault(p.onCurve, identityPub).Some? {
      return None, end, written;
    }
    offset := offset + Codec.PUBLIC_KEY_BYTES;
    var flags := payload[offset];
    offset := offset + 1;
    if flags / 2 != 0 {
      return None, end, written;
    }
    var displayNameLen := payload[offset] as int;
    offset := offset + 1;
    if displayNameLen > MAX_MEMBER_DISPLAY_NAME {
      return None, end, written;
    }
    if |payload| - offset < displayNameLen + SIGNATURE_BYTES {
      return None, end, written;
    }
    assert payload[offset..offset + displayNameLen] == b[67..67 + b[66] as int];
    var displayName := DecodeFatal(p.text, payload[offset..offset + displayNameLen]);
    if displayName.None? {
      return None, end, written;
    }
    offset := offset + displayNameLen;
    return Some(Member(identityPub, flags % 2 != 0, displayName.value)), offset, EntryAt(b);
  }

  /** The entry loop. On success `raw` is the list as written, before names were decoded. */
  method DecodeEntries(p: Platform, payload: Bytes, count: nat)
    returns (r: Result<seq<Member>, GroupError>, authors: nat, offset: nat, ghost raw: seq<Member>)
    requires Roomy(payload) && count == payload[GROUP_ID_BYTES + 4]
    ensures r.Ok? ==> Read(p, payload, raw, offset) && |raw| == count
    ensures r.Ok? ==> r.value == ShownMembers(raw) && authors == Authors(raw)
    ensures r.Err? ==> r.error == Malformed || r.error == MembershipInvalid
    ensures forall w | Carries(p, payload, w) ::
              if Distinct(w.members) then r.Ok? && raw == w.members else r == Err(MembershipInvalid)
    ensures r == Err(MembershipInvalid) <==> RepeatsEarly(p, payload)
  {
    var members: seq<Member> := [];
    var seen: set<Bytes> := {};
    authors := 0;
    offset := MEMBERSHIP_HEADER_BYTES;
    raw := [];
    assert payload[21..21] == [];
    for i := 0 to count
      invariant |raw| == i && Read(p, payload, raw, offset)
      invariant members == ShownMembers(raw) && seen == Keys(raw) && authors == Authors(raw)
    {
      var entry, end, written := DecodeEntry(p, payload, offset);
      if entry.None? {
        Unreadable(p, payload, raw, offset);
        NoneRepeats(p, payload, raw, offset);
        return Err(Malformed), authors, offset, raw;
      }
      if entry.value.isAuthor {
        authors := authors + 1;
      }
      if entry.value.identityPub in seen {
        Repeated(p, payload, raw, offset, written, end);
        return Err(MembershipInvalid), authors, offset, raw;
      }
      seen := seen + {entry.value.identityPub};
      members := members + [entry.value];
      raw := ReadMore(p, payload, raw, offset, written, end);
      offset := end;
    }
    AllRead(p, payload, raw, offset);
    NoneRepeats(p, payload, raw, offset);
    return Ok(members), authors, offset, raw;
  }

  /** The payload's first entries, up to `offset`, are readable as `raw`. */
  predicate Readable(p: Platform, payload: Bytes, raw: seq<Member>, offset: nat)
  {
    At(p, payload, raw, offset) && |payload| - offset >= SIGNATURE_BYTES && Utf8Names(p, raw)
  }

  /** The list read so far. */
  predicate Read(p: Platform, payload: Bytes, raw: seq<Member>, offset: nat)
  {
    Readable(p, payload, raw, offset) && Distinct(raw)
  }

  /** Some of the declared entries, read from the front, repeat an identity. */
  ghost predicate RepeatsEarly(p: Platform, payload: Bytes)
    requires Roomy(payload)
  {
    exists raw, offset: nat :: |raw| <= payload[GROUP_ID_BYTES + 4] as int && Readable(p, payload, raw, offset) && !Distinct(raw)
  }

  /** Entries can be read in one way only, and a longer reading goes on with a readable entry. */
  lemma ReadOnce(p: Platform, payload: Bytes, raw: seq<Member>, offset: nat, more: seq<Member>, end: nat)
    requires At(p, payload, raw, offset) && Readable(p, payload, more, end) && |raw| <= |more|
    ensures raw == more[..|raw|]
    ensures |raw| < |more| ==> EntryReadable(p, payload[offset..])
  {
    var k := |raw|;
    assert more == more[..k] + more[k..];
    EntriesAppend(p, more[..k], more[k..]);
    var all, tail := payload[MEMBERSHIP_HEADER_BYTES..], payload[end..];
    assert all == payload[MEMBERSHIP_HEADER_BYTES..offset] + payload[offset..];
    assert all == payload[MEMBERSHIP_HEADER_BYTES..end] + tail;
    Associative(EntriesBytes(p, more[..k]), EntriesBytes(p, more[k..]), tail);
    EntriesPrefixFree(p, raw, more[..k], payload[offset..], EntriesBytes(p, more[k..]) + tail);
    if k < |more| {
      var rest := more[k..];
      EntriesFirst(p, rest);
      Associative(EntryBytes(p, rest[0]), EntriesBytes(p, rest[1..]), tail);
      ReadableEntry(p, payload[offset..], rest[0], EntriesBytes(p, rest[1..]) + tail);
    }
  }

  /** Nothing repeats before the point where reading stops. */
  lemma NoneRepeats(p: Platform, payload: Bytes, raw: seq<Member>, offset: nat)
    requires Roomy(payload) && Read(p, payload, raw, offset)
    requires |raw| == payload[GROUP_ID_BYTES + 4] as int || !EntryReadable(p, payload[offset..])
    ensures !RepeatsEarly(p, payload)
  {
    forall more, end: nat | |more| <= payload[GROUP_ID_BYTES + 4] as int && Readable(p, payload, more, end)
      ensures Distinct(more)
    {
      if |more| > |raw| {
        ReadOnce(p, payload, raw, offset, more, end);
      } else {
        ReadOnce(p, payload, more, end, raw, offset);
      }
    }
  }

  /** The entry at `offset` is readable, is `m`, and ends at `end`. */
  predicate EntryIs(p: Platform, payload: Bytes, offset: nat, m: Member, end: nat)
  {
    offset <= |payload| && EntryReadable(p, payload[offset..])
    && m == EntryAt(payload[offset..]) && end == offset + 67 + payload[offset + 66] as int
  }

  lemma ReadMore(p: Platform, payload: Bytes, raw: seq<Member>, offset: nat, m: Member, end: nat) returns (more: seq<Member>)
    requires Read(p, payload, raw, offset) && EntryIs(p, payload, offset, m, end)
    requires m.identityPub !in Keys(raw)
    ensures |more| == |raw| + 1 && Read(p, payload, more, end)
    ensures ShownMembers(more) == ShownMembers(raw) + [ShownMember(m)]
    ensures Keys(more) == Keys(raw) + {m.identityPub}
    ensures Authors(more) == Authors(raw) + if m.isAuthor then 1 else 0
  {
    more := raw + [m];
    assert At(p, payload, more, end) && |payload| - end >= SIGNATURE_BYTES by {
      Advance(p, payload, raw, offset, end);
    }
    assert Utf8Names(p, more) by {
      assert p.text.wellFormed(m.displayName);
    }
    Extended(raw, m);
  }

  lemma Unreadable(p: Platform, payload: Bytes, raw: seq<Member>, offset: nat)
    requires At(p, payload, raw, offset) && |raw| < payload[GROUP_ID_BYTES + 4] as int
    requires !EntryReadable(p, payload[offset..])
    ensures forall w :: !Carries(p, payload, w)
  {
    forall w | Carries(p, payload, w) ensures false {
      CarriedNext(p, payload, w, raw, offset);
    }
  }

  lemma Repeated(p: Platform, payload: Bytes, raw: seq<Member>, offset: nat, m: Member, end: nat)
    requires At(p, payload, raw, offset) && |raw| < payload[GROUP_ID_BYTES + 4] as int
    requires EntryIs(p, payload, offset, m, end) && m.identityPub in Keys(raw)
    requires Utf8Names(p, raw) && Roomy(payload)
    ensures forall w | Carries(p, payload, w) :: !Distinct(w.members)
    ensures RepeatsEarly(p, payload)
  {
    var more := raw + [m];
    Advance(p, payload, raw, offset, end);
    assert Readable(p, payload, more, end);
    var j :| 0 <= j < |raw| && raw[j].identityPub == more[|raw|].identityPub;
    forall w | Carries(p, payload, w) ensures !Distinct(w.members) {
      CarriedNext(p, payload, w, raw, offset);
      assert w.members[j] == more[j] && w.members[|raw|] == more[|raw|];
    }
  }

  lemma Extended(raw: seq<Member>, m: Member)
    requires Distinct(raw) && m.identityPub !in Keys(raw)
    ensures Distinct(raw + [m]) && Keys(raw + [m]) == Keys(raw) + {m.identityPub}
    ensures Authors(raw + [m]) == Authors(raw) + if m.isAuthor then 1 else 0
    ensures ShownMembers(raw + [m]) == ShownMembers(raw) + [ShownMember(m)]
  {
    assert (raw + [m])[..|raw|] == raw;
    assert forall i :: 0 <= i < |raw| ==> raw[i].identityPub in Keys(raw);
  }

  lemma AllRead(p: Platform, payload: Bytes, raw: seq<Member>, offset: nat)
    requires Roomy(payload) && At(p, payload, raw, offset) && |raw| == payload[GROUP_ID_BYTES + 4]
    ensures forall w | Carries(p, payload, w) :: raw == w.members
  {
    forall w | Carries(p, payload, w) ensures raw == w.members {
      CarriedHeader(p, payload, w);
      ReadSoFar(p, payload, w, raw, offset);
      assert w.members[..|raw|] == w.members;
    }
  }

  lemma CarriedNext(p: Platform, payload: Bytes, w: Membership, raw: seq<Member>, offset: nat)
    requires Carries(p, payload, w) && At(p, payload, raw, offset) && |raw| < payload[GROUP_ID_BYTES + 4] as int
    ensures |w.members| > |raw| && EntryReadable(p, payload[offset..])
    ensures raw + [EntryAt(payload[offset..])] == w.members[..|raw| + 1]
  {
    CarriedHeader(p, payload, w);
    ReadSoFar(p, payload, w, raw, offset);
    var rest := w.members[|raw|..];
    EntriesFirst(p, rest);
    Associative(EntryBytes(p, rest[0]), EntriesBytes(p, rest[1..]), w.signature);
    ReadableEntry(p, payload[offset..], rest[0], EntriesBytes(p, rest[1..]) + w.signature);
    assert w.members[..|raw| + 1] == w.members[..|raw|] + [rest[0]];
  }

  lemma Advance(p: Platform, payload: Bytes, raw: seq<Member>, offset: nat, end: nat)
    requires At(p, payload, raw, offset) && EntryReadable(p, payload[offset..])
    requires end == offset + 67 + payload[offset + 66] as int
    ensures At(p, payload, raw + [EntryAt(payload[offset..])], end)
    ensures |payload| - end >= SIGNATURE_BYTES
  {
    var b := payload[offset..];
    ReadEntry(p, b);
    var more := raw + [EntryAt(b)];
    assert more[..|raw|] == raw;
    assert payload[MEMBERSHIP_HEADER_BYTES..end] == payload[MEMBERSHIP_HEADER_BYTES..offset] + b[..end - offset];
  }

  /** The payload declares more members than the cap allows. */
  predicate OverCap(payload: Bytes, maxMembers: int)
  {
    |payload| >= MEMBERSHIP_HEADER_BYTES + SIGNATURE_BYTES && payload[GROUP_ID_BYTES + 4] as int > Cap(maxMembers)
  }

  /** The payload has room for the entries it declares, and they repeat an identity before anything
      unreadable, or they are a whole list that is not proper. */
  ghost predicate Improper(p: Platform, payload: Bytes)
  {
    Roomy(payload) && (RepeatsEarly(p, payload) || exists w :: Carries(p, payload, w) && !Proper(w.members))
  }

  /** `decodeMembership`: accepts exactly the wire forms of proper lists within the cap. A payload
      that is framed correctly but repeats an identity or has not one author is `MembershipInvalid`;
      one over the cap is `MemberLimitReached`; the ghost result is the list as written. Whatever is neither is `Malformed`. */
  method DecodeMembership(p: Platform, payload: Bytes, maxMembers: int)
    returns (r: Result<Membership, GroupError>, ghost w: Membership)
    ensures r.Ok? ==> Carries(p, payload, w) && Proper(w.members) && |w.members| <= Cap(maxMembers) && r.value == Shown(w)
    ensures forall v | Carries(p, payload, v) && |v.members| <= Cap(maxMembers) ::
              r == if Proper(v.members) then Ok(Shown(v)) else Err(MembershipInvalid)
    ensures r == Err(MemberLimitReached) <==> OverCap(payload, maxMembers)
    ensures r == Err(MembershipInvalid) <==> !OverCap(payload, maxMembers) && Improper(p, payload)
    ensures r == Err(Malformed)
       <==> !OverCap(payload, maxMembers) && !Improper(p, payload) && forall v :: !Carries(p, payload, v)
  {
    var cap := Cap(maxMembers);
    w := Membership([], 0, [], []);
    forall v | Carries(p, payload, v)
      ensures Roomy(payload) && |v.members| == payload[GROUP_ID_BYTES + 4]
    {
      CarriedHeader(p, payload, v);
    }
    if |payload| < MEMBERSHIP_HEADER_BYTES + SIGNATURE_BYTES {
      return Err(Malformed), w;
    }
    var groupId := payload[..GROUP_ID_BYTES];
    var epoch := Uint32At(payload, GROUP_ID_BYTES);
    var memberCount := payload[GROUP_ID_BYTES + 4];
    if memberCount as int > cap {
      return Err(MemberLimitReached), w;
    }
    var entriesBytes := |payload| - MEMBERSHIP_HEADER_BYTES - SIGNATURE_BYTES;
    if entriesBytes < memberCount as int * MEMBER_ENTRY_FIXED_BYTES {
      return Err(Malformed), w;
    }
    var members, authorCount, offset, raw := DecodeEntries(p, payload, memberCount);
    if members.Err? {
      return Err(members.error), w;
    }
    if |payload| - offset != SIGNATURE_BYTES {
      forall v | Carries(p, payload, v) ensures false {
        TrailerExact(p, payload, v, raw, offset);
      }
      return Err(Malformed), w;
    }
    w := Membership(groupId, epoch, raw, payload[offset..]);
    Assembled(p, payload, raw, offset, w);
    forall v | Carries(p, payload, v) ensures v == w {
      CarriedOnce(p, payload, v, w);
    }
    if authorCount != 1 {
      return Err(MembershipInvalid), w;
    }
    return Ok(Membership(groupId, epoch, members.value, payload[offset..offset + SIGNATURE_BYTES])), w;
  }

  lemma TrailerExact(p: Platform, payload: Bytes, v: Membership, raw: seq<Member>, offset: nat)
    requires Carries(p, payload, v) && At(p, payload, raw, offset) && raw == v.members
    ensures |payload| - offset == SIGNATURE_BYTES
  {
    ReadSoFar(p, payload, v, raw, offset);
    assert EntriesBytes(p, v.members[|raw|..]) == [];
  }

  lemma Assembled(p: Platform, payload: Bytes, raw: seq<Member>, offset: nat, w: Membership)
    requires Roomy(payload) && At(p, payload, raw, offset) && |raw| == payload[GROUP_ID_BYTES + 4]
    requires forall i :: 0 <= i < |raw| ==> p.text.wellFormed(raw[i].displayName)
    requires |payload| - offset == SIGNATURE_BYTES
    requires w == Membership(payload[..GROUP_ID_BYTES], Uint32At(payload, GROUP_ID_BYTES), raw, payload[offset..])
    ensures Carries(p, payload, w)
  {
    Uint32Exact(payload, GROUP_ID_BYTES);
    assert payload[..21] == payload[..16] + payload[16..20] + [payload[20]];
    assert payload == payload[..21] + payload[21..offset] + payload[offset..];
  }

  // ----- What the codec promises -----

  /** Names as the text encoder writes them. */
  predicate Utf8Names(p: Platform, members: seq<Member>)
  {
    forall i :: 0 <= i < |members| ==> p.text.wellFormed(members[i].displayName)
  }

  predicate NoBomNames(members: seq<Member>)
  {
    forall i :: 0 <= i < |members| ==> !HasBom(members[i].displayName)
  }

  lemma ShownSame(members: seq<Member>)
    ensures ShownMembers(members) == members <==> NoBomNames(members)
  {
    if NoBomNames(members) {
      assert forall i :: 0 <= i < |members| ==> ShownMember(members[i]) == members[i];
    } else {
      var i :| 0 <= i < |members| && HasBom(members[i].displayName);
      assert ShownMembers(members)[i] != members[i];
    }
  }

  lemma EncodedCarried(p: Platform, m: Membership)
    requires Encodable(p, m) && Utf8Names(p, m.members)
    ensures Framed(p, m) && Carries(p, WireBytes(p, m), m) && Proper(m.members)
  {
    EncoderAccepts(p, m.groupId, m.epoch, m.members, MAX_GROUP_MEMBERS_HARD);
  }

  /** Decoding an encoded list, under any cap at least its length, gives the list with a leading
      byte-order mark dropped from each name, hence the list itself exactly when no name has one. */
  lemma RoundTrip(p: Platform, m: Membership, maxMembers: int, d: Membership)
    requires Encodable(p, m) && Utf8Names(p, m.members) && |m.members| <= maxMembers
    ensures Framed(p, m)
    ensures DecodesTo(p, WireBytes(p, m), maxMembers, d) <==> d == Shown(m)
    ensures DecodesTo(p, WireBytes(p, m), maxMembers, m) <==> NoBomNames(m.members)
  {
    EncodedCarried(p, m);
    EncoderAccepts(p, m.groupId, m.epoch, m.members, MAX_GROUP_MEMBERS_HARD);
    ShownSame(m.members);
    forall w | Carries(p, WireBytes(p, m), w) ensures w == m {
      CarriedOnce(p, WireBytes(p, m), w, m);
    }
    assert DecodesTo(p, WireBytes(p, m), maxMembers, Shown(m));
  }

  /** An accepted list can always be encoded again; the bytes come back identical exactly when no
      name on the wire started with a byte-order mark. */
  lemma Reencodes(p: Platform, payload: Bytes, w: Membership)
    requires Carries(p, payload, w) && Proper(w.members) && |w.members| <= MAX_GROUP_MEMBERS_HARD
    ensures Encodable(p, Shown(w)) && Framed(p, Shown(w))
    ensures WireBytes(p, Shown(w)) == payload <==> NoBomNames(w.members)
  {
    ShownKeeps(p, w.members);
    EncoderAccepts(p, w.groupId, w.epoch, ShownMembers(w.members), MAX_GROUP_MEMBERS_HARD);
    ShownSame(w.members);
    if WireBytes(p, Shown(w)) == payload {
      WireInjective(p, Shown(w), w);
    }
  }

  /** A group of one whose author is named by a bare byte-order mark: encodable, and read back as
      another list, one whose author has no name. */
  lemma BomNameLost(p: Platform, key: Bytes, groupId: Bytes, signature: Bytes)
    requires Codec.PublicKeyFault(p.onCurve, key).None? && p.text.wellFormed(BOM)
    requires |groupId| == GROUP_ID_BYTES && |signature| == SIGNATURE_BYTES
    ensures var m := Membership(groupId, 1, [Member(key, true, BOM)], signature);
            Encodable(p, m) && Framed(p, m) && !DecodesTo(p, WireBytes(p, m), 8, m)
            && DecodesTo(p, WireBytes(p, m), 8, m.(members := [Member(key, true, [])]))
  {
    var members := [Member(key, true, BOM)];
    var m := Membership(groupId, 1, members, signature);
    assert members[..0] == [];
    assert Authors(members) == 1;
    EncoderAccepts(p, groupId, 1, members, MAX_GROUP_MEMBERS_HARD);
    assert HasBom(members[0].displayName);
    RoundTrip(p, m, 8, m);
    RoundTrip(p, m, 8, Shown(m));
    assert ShownMembers(members) == [Member(key, true, [])];
  }

  /** What `DecodeMembership` answers is exactly what the payload decodes to. */
  lemma DecodedExactly(p: Platform, payload: Bytes, maxMembers: int, r: Result<Membership, GroupError>, w: Membership)
    requires r.Ok? ==> Carries(p, payload, w) && Proper(w.members) && |w.members| <= Cap(maxMembers) && r.value == Shown(w)
    requires forall v | Carries(p, payload, v) && |v.members| <= Cap(maxMembers) ::
               r == if Proper(v.members) then Ok(Shown(v)) else Err(MembershipInvalid)
    ensures forall m :: r == Ok(m) <==> DecodesTo(p, payload, maxMembers, m)
  {
  }

  lemma DecodedEncodable(p: Platform, payload: Bytes, maxMembers: int, m: Membership)
    requires DecodesTo(p, payload, maxMembers, m)
    ensures Encodable(p, m) && Authors(m.members) == 1
  {
    var w :| Carries(p, payload, w) && Proper(w.members) && |w.members| <= Cap(maxMembers) && m == Shown(w);
    Reencodes(p, payload, w);
    ShownKeeps(p, w.members);
  }

  // ----- Signatures -----

  /** `filter((m) => m.isAuthor)`. */
  function AuthorEntries(members: seq<Member>): (s: seq<Member>)
    ensures |s| == Authors(members)
  {
    if members == [] then []
    else AuthorEntries(members[..|members| - 1])
         + if members[|members| - 1].isAuthor then [members[|members| - 1]] else []
  }

  /** The flagged author's key. */
  function AuthorKey(members: seq<Member>): Bytes
    requires Authors(members) == 1
  {
    AuthorEntries(members)[0].identityPub
  }

  lemma {:induction false} AuthorEntriesFlagged(members: seq<Member>)
    ensures forall m :: m in AuthorEntries(members) <==> m in members && m.isAuthor
  {
    if members != [] {
      var last := |members| - 1;
      AuthorEntriesFlagged(members[..last]);
      assert members == members[..last] + [members[last]];
    }
  }

  lemma {:induction false} ShownAuthor(members: seq<Member>)
    ensures AuthorEntries(ShownMembers(members)) == ShownMembers(AuthorEntries(members))
  {
    if members != [] {
      var last := |members| - 1;
      ShownAuthor(members[..last]);
      assert ShownMembers(members)[..last] == ShownMembers(members[..last]);
      var a, b := AuthorEntries(members[..last]), if members[last].isAuthor then [members[last]] else [];
      if members[last].isAuthor {
        assert (a + b)[..|a|] == a;
      }
    }
  }

  /** The verification primitive: key, signature and message. */
  type Verify = (Bytes, Bytes, Bytes) -> bool

  /** What `verifyMembership` answers about a list the decoder produced. */
  ghost predicate Verifies(p: Platform, verify: Verify, m: Membership)
  {
    Authors(m.members) == 1 && Writable(p, m.groupId, m.epoch, m.members)
    && verify(AuthorKey(m.members), m.signature, BodyBytes(p, m.groupId, m.epoch, m.members))
  }

  method VerifyMembership(p: Platform, verify: Verify, m: Membership) returns (r: Result<bool, GroupError>)
    ensures Authors(m.members) != 1 ==> r == Ok(false)
    ensures Authors(m.members) == 1 ==> (r.Err? <==> BodyFault(p, m.groupId, m.epoch, m.members, MAX_GROUP_MEMBERS_HARD).Some?)
    ensures r.Ok? ==> r.value == Verifies(p, verify, m)
  {
    var authors := AuthorEntries(m.members);
    if |authors| != 1 {
      return Ok(false);
    }
    var body := EncodeMembershipBody(p, m.groupId, m.epoch, m.members, MAX_GROUP_MEMBERS_HARD);
    if body.Err? {
      return Err(body.error);
    }
    return Ok(verify(authors[0].identityPub, m.signature, body.value));
  }

  lemma ShownBody(p: Platform, m: Membership)
    requires Writable(p, m.groupId, m.epoch, m.members)
    ensures Writable(p, m.groupId, m.epoch, ShownMembers(m.members))
    ensures BodyBytes(p, m.groupId, m.epoch, ShownMembers(m.members)) == BodyBytes(p, m.groupId, m.epoch, m.members)
       <==> NoBomNames(m.members)
  {
    var s := ShownMembers(m.members);
    ShownKeeps(p, m.members);
    ShownSame(m.members);
    if BodyBytes(p, m.groupId, m.epoch, s) == BodyBytes(p, m.groupId, m.epoch, m.members) {
      SignedBodyInjective(p, m.groupId, m.epoch, s, m.groupId, m.epoch, m.members);
    }
  }

  /** A list its author signed reaches a receiver and verifies there exactly when no member name
      starts with a byte-order mark: the receiver recomputes the signed bytes from decoded names, so
      one such name makes every honest receiver discard the author's list. */
  lemma SignedListVerifies(p: Platform, verify: Verify, m: Membership)
    requires Encodable(p, m) && Utf8Names(p, m.members)
    requires Authors(m.members) == 1 && Writable(p, m.groupId, m.epoch, m.members)
    requires forall b :: verify(AuthorKey(m.members), m.signature, b)
                    <==> b == BodyBytes(p, m.groupId, m.epoch, m.members)
    ensures Verifies(p, verify, Shown(m)) <==> NoBomNames(m.members)
  {
    EncodedCarried(p, m);
    ShownKeeps(p, m.members);
    ShownAuthor(m.members);
    ShownSame(m.members);
    ShownBody(p, m);
    assert AuthorKey(ShownMembers(m.members)) == AuthorKey(m.members);
  }

  // ----- Diffs -----

  /** The members of `of` whose identity is not in `without`, in order. */
  function Minus(of: seq<Member>, without: set<Bytes>): seq<Member>
  {
    if of == [] then []
    else Minus(of[..|of| - 1], without)
         + if of[|of| - 1].identityPub in without then [] else [of[|of| - 1]]
  }

  function AddedMembers(prev: seq<Member>, next: seq<Member>): seq<Member>
  {
    Minus(next, Keys(prev))
  }

  function RemovedMembers(prev: seq<Member>, next: seq<Member>): seq<Member>
  {
    Minus(prev, Keys(next))
  }

  lemma {:induction false} MinusIs(of: seq<Member>, without: set<Bytes>)
    ensures forall m :: m in Minus(of, without) <==> m in of && m.identityPub !in without
    ensures Keys(Minus(of, without)) == Keys(of) - without
  {
    if of != [] {
      var last := |of| - 1;
      MinusIs(of[..last], without);
      assert of == of[..last] + [of[last]];
    }
  }

  /** The two diffs account for the whole change of the list's identities. */
  lemma DiffsExact(prev: seq<Member>, next: seq<Member>)
    ensures Keys(next) == Keys(prev) - Keys(RemovedMembers(prev, next)) + Keys(AddedMembers(prev, next))
    ensures Keys(RemovedMembers(prev, next)) !! Keys(next) && Keys(AddedMembers(prev, next)) !! Keys(prev)
  {
    MinusIs(prev, Keys(next));
    MinusIs(next, Keys(prev));
  }
}
