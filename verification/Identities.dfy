/** What two members derive from their keys alone, and must derive alike: the pairwise conversation id
    (`group/pairwise-id.ts`) and the safety numbers (`crypto/safety-number.ts`). */
module Identities {
  import opened Bytes
  import Codec

  /** "fck-group-v1/pair" and "fck-group-v1/safety". */
  const PAIRWISE_DOMAIN: Bytes := [102, 99, 107, 45, 103, 114, 111, 117, 112, 45, 118, 49, 47, 112, 97, 105, 114]
  const GROUP_SAFETY_DOMAIN: Bytes := [102, 99, 107, 45, 103, 114, 111, 117, 112, 45, 118, 49, 47, 115, 97, 102, 101, 116, 121]

  const SAFETY_NUMBER_MODULUS: int := 1000000000000

  // ----- Pairs -----

  function First(a: Bytes, b: Bytes): Bytes { if Compare(a, b) <= 0 then a else b }

  function Second(a: Bytes, b: Bytes): Bytes { if Compare(a, b) <= 0 then b else a }

  lemma PairOrder(a: Bytes, b: Bytes)
    ensures First(a, b) == First(b, a) && Second(a, b) == Second(b, a)
    ensures {First(a, b), Second(a, b)} == {a, b}
  {
    CompareZero(a, b);
    CompareAntisymmetric(a, b);
  }

  function PairMaterial(domain: Bytes, id: Bytes, a: Bytes, b: Bytes): Bytes
  {
    domain + id + First(a, b) + Second(a, b)
  }

  /** The buffer both derivations fill before they hash it. */
  method FillPair(domain: Bytes, id: Bytes, a: Bytes, b: Bytes) returns (material: Bytes)
    ensures material == PairMaterial(domain, id, a, b)
  {
    var order := CompareBytes(a, b);
    var first, second := if order <= 0 then a else b, if order <= 0 then b else a;
    var buffer := new byte[|domain| + |id| + |first| + |second|](_ => 0);
    var offset := 0;
    SetBytes(buffer, offset, domain);
    offset := offset + |domain|;
    assert buffer[..offset] == domain;
    SetBytes(buffer, offset, id);
    offset := offset + |id|;
    assert buffer[..offset] == domain + id;
    SetBytes(buffer, offset, first);
    offset := offset + |first|;
    assert buffer[..offset] == domain + id + first;
    SetBytes(buffer, offset, second);
    assert buffer[..] == buffer[..offset + |second|] == domain + id + first + second;
    return buffer[..];
  }

  predicate Key(k: Bytes) { |k| == Codec.PUBLIC_KEY_BYTES }

  /** What is hashed determines the group or conversation and the pair of keys, in no order. */
  lemma PairMaterialInjective(domain: Bytes, g: Bytes, a: Bytes, b: Bytes, h: Bytes, c: Bytes, d: Bytes)
    requires |g| == |h| == Codec.CONVERSATION_ID_BYTES && Key(a) && Key(b) && Key(c) && Key(d)
    requires PairMaterial(domain, g, a, b) == PairMaterial(domain, h, c, d)
    ensures g == h && {a, b} == {c, d}
  {
    var m, n := PairMaterial(domain, g, a, b), PairMaterial(domain, h, c, d);
    var o := |domain|;
    assert g == m[o..o + 16] == n[o..o + 16] == h;
    assert First(a, b) == m[o + 16..o + 81] == n[o + 16..o + 81] == First(c, d);
    assert Second(a, b) == m[o + 81..] == n[o + 81..] == Second(c, d);
    PairOrder(a, b);
    PairOrder(c, d);
  }

  /** `derivePairwiseConvId`: the curve test and the hash are parameters. */
  method DerivePairwiseConvId(onCurve: Bytes -> bool, sha256: Bytes -> Bytes, groupId: Bytes, a: Bytes, b: Bytes)
    returns (r: Result<Bytes, Codec.ProtocolError>)
    requires forall m :: |sha256(m)| == 32
    ensures r.Ok? <==> |groupId| == Codec.CONVERSATION_ID_BYTES
                       && Codec.PublicKeyFault(onCurve, a).None? && Codec.PublicKeyFault(onCurve, b).None?
    ensures r.Ok? ==> r.value == sha256(PairMaterial(PAIRWISE_DOMAIN, groupId, a, b))[..16]
  {
    if |groupId| != Codec.CONVERSATION_ID_BYTES {
      return Err(Codec.InvalidLength);
    }
    if Codec.PublicKeyFault(onCurve, a).Some? || Codec.PublicKeyFault(onCurve, b).Some? {
      return Err(Codec.InvalidEncoding);
    }
    var material := FillPair(PAIRWISE_DOMAIN, groupId, a, b);
    return Ok(sha256(material)[..16]);
  }

  /** Both ends of a link derive one conversation id and one safety number. */
  lemma PairsAgree(sha256: Bytes -> Bytes, id: Bytes, a: Bytes, b: Bytes)
    requires forall m :: |sha256(m)| == 32
    ensures sha256(PairMaterial(PAIRWISE_DOMAIN, id, a, b)) == sha256(PairMaterial(PAIRWISE_DOMAIN, id, b, a))
    ensures SafetyNumber(sha256, id, a, b) == SafetyNumber(sha256, id, b, a)
  {
    PairOrder(a, b);
  }

  // ----- Rendering -----

  function Uint40(b: Bytes): nat
    requires |b| >= 5
  {
    b[0] as int * 0x100000000 + b[1] as int * 0x1000000 + b[2] as int * 0x10000 + b[3] as int * 0x100 + b[4] as int
  }

  /** The last `digits` decimal digits of a number, most significant first. */
  function Digits(n: nat, digits: nat): (s: string)
    ensures |s| == digits
    decreases digits
  {
    if digits == 0 then "" else Digits(n / 10, digits - 1) + [DigitChar(n % 10)]
  }

  function DigitChar(d: nat): char
    requires d < 10
  {
    "0123456789"[d]
  }

  function Pow10(n: nat): (p: nat)
    ensures p > 0
  {
    if n == 0 then 1 else 10 * Pow10(n - 1)
  }

  lemma {:induction false} DigitsInjective(a: nat, b: nat, digits: nat)
    requires a < Pow10(digits) && b < Pow10(digits) && Digits(a, digits) == Digits(b, digits)
    ensures a == b
    decreases digits
  {
    if digits > 0 {
      var s, t := Digits(a, digits), Digits(b, digits);
      assert s[..digits - 1] == Digits(a / 10, digits - 1) && t[..digits - 1] == Digits(b / 10, digits - 1);
      assert s[digits - 1] == DigitChar(a % 10) && t[digits - 1] == DigitChar(b % 10);
      DigitsInjective(a / 10, b / 10, digits - 1);
    }
  }

  /** Two-digit groups with a space between. */
  function Grouped(s: string): string
    decreases |s|
  {
    if |s| <= 2 then s else s[..2] + " " + Grouped(s[2..])
  }

  lemma {:induction false} GroupedInjective(s: string, t: string)
    requires |s| == |t| && Grouped(s) == Grouped(t)
    ensures s == t
    decreases |s|
  {
    if |s| > 2 {
      var u, v := Grouped(s), Grouped(t);
      assert u[..2] == s[..2] && v[..2] == t[..2] && u[3..] == Grouped(s[2..]) && v[3..] == Grouped(t[2..]);
      GroupedInjective(s[2..], t[2..]);
      assert s == s[..2] + s[2..] && t == t[..2] + t[2..];
    }
  }

  /** The loop of `formatSafetyNumber`. */
  method Group(padded: string) returns (out: string)
    ensures out == Grouped(padded)
  {
    out := "";
    var i := 0;
    while i + 2 < |padded|
      invariant 0 <= i <= |padded|
      invariant out + Grouped(padded[i..]) == Grouped(padded)
    {
      assert padded[i..][..2] == padded[i..i + 2] && padded[i..][2..] == padded[i + 2..];
      out := out + padded[i..i + 2] + " ";
      i := i + 2;
    }
    out := out + padded[i..];
  }

  function Render(digest: Bytes): string
    requires |digest| >= 5
  {
    Grouped(Digits(Uint40(digest) % SAFETY_NUMBER_MODULUS, 12))
  }

  /** Users that read the same number compared the same 40 bits, up to the modulus. */
  lemma RenderInjective(d: Bytes, e: Bytes)
    requires |d| >= 5 && |e| >= 5
    ensures Render(d) == Render(e) <==> Uint40(d) % SAFETY_NUMBER_MODULUS == Uint40(e) % SAFETY_NUMBER_MODULUS
  {
    if Render(d) == Render(e) {
      var m, n := Uint40(d) % SAFETY_NUMBER_MODULUS, Uint40(e) % SAFETY_NUMBER_MODULUS;
      assert Pow10(12) == SAFETY_NUMBER_MODULUS by {
        assert Pow10(4) == 10000;
        assert Pow10(8) == 100000000;
      }
      GroupedInjective(Digits(m, 12), Digits(n, 12));
      DigitsInjective(m, n, 12);
    }
  }

  function SafetyNumber(sha256: Bytes -> Bytes, id: Bytes, a: Bytes, b: Bytes): string
    requires forall m :: |sha256(m)| == 32
  {
    Render(sha256(PairMaterial([], id, a, b)))
  }

  // ----- The group number -----

  predicate Ascending(keys: seq<Bytes>)
  {
    forall i, j :: 0 <= i < j < |keys| ==> Compare(keys[i], keys[j]) <= 0
  }

  function Inserted(keys: seq<Bytes>, k: Bytes): seq<Bytes>
  {
    if keys == [] || Compare(k, keys[0]) <= 0 then [k] + keys else [keys[0]] + Inserted(keys[1..], k)
  }

  /** `sort(compareBytes)`. */
  function Sorted(keys: seq<Bytes>): seq<Bytes>
  {
    if keys == [] then [] else Inserted(Sorted(keys[1..]), keys[0])
  }

  lemma {:induction false} InsertedHolds(keys: seq<Bytes>, k: Bytes)
    ensures multiset(Inserted(keys, k)) == multiset(keys) + multiset{k}
  {
    if keys != [] && Compare(k, keys[0]) > 0 {
      assert keys == [keys[0]] + keys[1..];
      InsertedHolds(keys[1..], k);
    }
  }

  lemma {:induction false} InsertedAscends(keys: seq<Bytes>, k: Bytes)
    requires Ascending(keys)
    ensures Ascending(Inserted(keys, k))
  {
    if keys != [] && Compare(k, keys[0]) <= 0 {
      forall j | 0 < j < |keys| ensures Compare(k, keys[j]) <= 0 {
        CompareTransitive(k, keys[0], keys[j]);
      }
    } else if keys != [] {
      InsertedAscends(keys[1..], k);
      InsertedHolds(keys[1..], k);
      CompareAntisymmetric(k, keys[0]);
      var rest := Inserted(keys[1..], k);
      forall j | 0 <= j < |rest| ensures Compare(keys[0], rest[j]) <= 0 {
        assert rest[j] in multiset(rest);
        if rest[j] != k {
          assert rest[j] in keys[1..];
          var i :| 0 <= i < |keys[1..]| && keys[1..][i] == rest[j];
          assert keys[i + 1] == rest[j];
        }
      }
    }
  }

  lemma {:induction false} SortedIs(keys: seq<Bytes>)
    ensures Ascending(Sorted(keys)) && multiset(Sorted(keys)) == multiset(keys)
  {
    if keys != [] {
      SortedIs(keys[1..]);
      InsertedAscends(Sorted(keys[1..]), keys[0]);
      InsertedHolds(Sorted(keys[1..]), keys[0]);
      assert keys == [keys[0]] + keys[1..];
    }
  }

  /** The first of an ascending list is its least. */
  lemma SameFirst(a: seq<Bytes>, b: seq<Bytes>)
    requires Ascending(a) && Ascending(b) && a != [] && b != []
    requires a[0] in b && b[0] in a
    ensures a[0] == b[0]
  {
    var i :| 0 <= i < |b| && b[i] == a[0];
    var j :| 0 <= j < |a| && a[j] == b[0];
    CompareZero(a[0], a[0]);
    CompareZero(b[0], b[0]);
    assert Compare(b[0], a[0]) <= 0 && Compare(a[0], b[0]) <= 0;
    CompareAntisymmetric(a[0], b[0]);
    CompareZero(a[0], b[0]);
  }

  /** An ascending list is determined by what is in it. */
  lemma {:induction false} AscendingUnique(a: seq<Bytes>, b: seq<Bytes>)
    requires Ascending(a) && Ascending(b) && multiset(a) == multiset(b)
    ensures a == b
  {
    assert |multiset(a)| == |a| && |multiset(b)| == |b|;
    if a != [] {
      assert a[0] in multiset(a) && b[0] in multiset(b);
      SameFirst(a, b);
      Tail(a);
      Tail(b);
      AscendingUnique(a[1..], b[1..]);
    }
  }

  lemma Tail(a: seq<Bytes>)
    requires a != []
    ensures multiset(a[1..]) == multiset(a) - multiset{a[0]} && a == [a[0]] + a[1..]
  {
    assert a == [a[0]] + a[1..];
  }

  function GroupMaterial(id: Bytes, epoch: uint32, keys: seq<Bytes>): Bytes
  {
    GROUP_SAFETY_DOMAIN + id + Uint32Bytes(epoch) + Joined(Sorted(keys))
  }

  /** The group number is the same from any order of the same members. */
  lemma GroupNumberIgnoresOrder(sha256: Bytes -> Bytes, id: Bytes, epoch: uint32, a: seq<Bytes>, b: seq<Bytes>)
    requires (forall m :: |sha256(m)| == 32) && multiset(a) == multiset(b)
    ensures Render(sha256(GroupMaterial(id, epoch, a))) == Render(sha256(GroupMaterial(id, epoch, b)))
  {
    SortedIs(a);
    SortedIs(b);
    AscendingUnique(Sorted(a), Sorted(b));
  }

  lemma {:induction false} JoinedInjective(a: seq<Bytes>, b: seq<Bytes>)
    requires (forall i :: 0 <= i < |a| ==> Key(a[i])) && (forall i :: 0 <= i < |b| ==> Key(b[i])) && Joined(a) == Joined(b)
    ensures a == b
    decreases |a|
  {
    JoinedLength(a);
    JoinedLength(b);
    if a != [] {
      var last := |a| - 1;
      var m := |Joined(a)| - Codec.PUBLIC_KEY_BYTES;
      assert Joined(a)[..m] == Joined(a[..last]) && Joined(b)[..m] == Joined(b[..last]);
      assert Joined(a)[m..] == a[last] && Joined(b)[m..] == b[last];
      JoinedInjective(a[..last], b[..last]);
      assert a == a[..last] + [a[last]] && b == b[..last] + [b[last]];
    }
  }

  lemma {:induction false} JoinedLength(a: seq<Bytes>)
    requires forall i :: 0 <= i < |a| ==> Key(a[i])
    ensures |Joined(a)| == |a| * Codec.PUBLIC_KEY_BYTES
  {
    if a != [] {
      JoinedLength(a[..|a| - 1]);
    }
  }

  /** What is hashed determines the group, the epoch and the members. */
  lemma GroupMaterialInjective(g: Bytes, e: uint32, a: seq<Bytes>, h: Bytes, f: uint32, b: seq<Bytes>)
    requires |g| == |h| == Codec.CONVERSATION_ID_BYTES
    requires (forall i :: 0 <= i < |a| ==> Key(a[i])) && (forall i :: 0 <= i < |b| ==> Key(b[i]))
    requires GroupMaterial(g, e, a) == GroupMaterial(h, f, b)
    ensures g == h && e == f && multiset(a) == multiset(b)
  {
    var m, n := GroupMaterial(g, e, a), GroupMaterial(h, f, b);
    var o := |GROUP_SAFETY_DOMAIN|;
    assert g == m[o..o + 16] == n[o..o + 16] == h;
    assert Uint32Bytes(e) == m[o + 16..o + 20] == n[o + 16..o + 20] == Uint32Bytes(f);
    Uint32Injective(e, f);
    assert Joined(Sorted(a)) == m[o + 20..] == n[o + 20..] == Joined(Sorted(b));
    SortedIs(a);
    SortedIs(b);
    SortedKeys(a);
    SortedKeys(b);
    JoinedInjective(Sorted(a), Sorted(b));
  }

  lemma SortedKeys(keys: seq<Bytes>)
    requires forall i :: 0 <= i < |keys| ==> Key(keys[i])
    ensures forall i :: 0 <= i < |Sorted(keys)| ==> Key(Sorted(keys)[i])
  {
    SortedIs(keys);
    forall i | 0 <= i < |Sorted(keys)| ensures Key(Sorted(keys)[i]) {
      assert Sorted(keys)[i] in multiset(Sorted(keys));
      assert Sorted(keys)[i] in keys;
    }
  }
}

/** Invitation links (`orchestrator/invitation.ts`): the conversation id in hexadecimal after the last
    `#`, and after a `~` an optional six-digit code. */
module Invitation {
  import opened Bytes
  import Codec

  datatype InvitationError = MalformedInvitation

  datatype Parsed = Parsed(conversationId: Bytes, code: Option<string>)

  function HexChar(d: nat): char
    requires d < 16
  {
    "0123456789abcdef"[d]
  }

  predicate IsHex(c: char) { '0' <= c <= '9' || 'a' <= c <= 'f' }

  function HexValue(c: char): (d: nat)
    requires IsHex(c)
    ensures d < 16
  {
    if c <= '9' then c as int - '0' as int else c as int - 'a' as int + 10
  }

  lemma HexCharValue(d: nat)
    requires d < 16
    ensures IsHex(HexChar(d)) && HexValue(HexChar(d)) == d
  {
    var s := "0123456789abcdef";
    assert s[0] == '0' && s[1] == '1' && s[2] == '2' && s[3] == '3' && s[4] == '4' && s[5] == '5' && s[6] == '6' && s[7] == '7';
    assert s[8] == '8' && s[9] == '9' && s[10] == 'a' && s[11] == 'b' && s[12] == 'c' && s[13] == 'd' && s[14] == 'e' && s[15] == 'f';
  }

  function Hex(id: Bytes): string
  {
    if id == [] then "" else Hex(id[..|id| - 1]) + [HexChar(id[|id| - 1] as int / 16), HexChar(id[|id| - 1] as int % 16)]
  }

  /** The loop of `conversationIdToHex`. */
  method ConversationIdToHex(id: Bytes) returns (hex: string)
    ensures hex == Hex(id)
  {
    hex := "";
    for i := 0 to |id|
      invariant hex == Hex(id[..i])
    {
      assert id[..i + 1][..i] == id[..i];
      hex := hex + [HexChar(id[i] as int / 16), HexChar(id[i] as int % 16)];
    }
    assert id[..|id|] == id;
  }

  predicate AllHex(s: string)
  {
    forall i :: 0 <= i < |s| ==> IsHex(s[i])
  }

  lemma {:induction false} HexOf(id: Bytes, i: nat)
    requires i < |id|
    ensures |Hex(id)| == 2 * |id| && AllHex(Hex(id))
    ensures HexValue(Hex(id)[2 * i]) * 16 + HexValue(Hex(id)[2 * i + 1]) == id[i] as int
  {
    var last := |id| - 1;
    HexCharValue(id[last] as int / 16);
    HexCharValue(id[last] as int % 16);
    if last > 0 {
      HexOf(id[..last], if i < last then i else 0);
    }
  }

  function Unhex(s: string): Bytes
    requires |s| == 32 && AllHex(s)
  {
    seq(16, i requires 0 <= i < 16 => HexValue(s[2 * i]) * 16 + HexValue(s[2 * i + 1]))
  }

  /** `hexToConversationId`. */
  method HexToConversationId(hex: string) returns (r: Result<Bytes, InvitationError>)
    ensures r == if |hex| == 32 && AllHex(hex) then Ok(Unhex(hex)) else Err(MalformedInvitation)
  {
    if !(|hex| == 32 && AllHex(hex)) {
      return Err(MalformedInvitation);
    }
    var out := new byte[16](_ => 0);
    for i := 0 to 16
      invariant forall k :: 0 <= k < i ==> out[k] == Unhex(hex)[k]
    {
      out[i] := HexValue(hex[2 * i]) * 16 + HexValue(hex[2 * i + 1]);
    }
    assert out[..] == Unhex(hex);
    return Ok(out[..]);
  }

  lemma UnhexHex(id: Bytes)
    requires |id| == 16
    ensures |Hex(id)| == 32 && AllHex(Hex(id)) && Unhex(Hex(id)) == id
  {
    HexOf(id, 0);
    forall i | 0 <= i < 16 ensures Unhex(Hex(id))[i] == id[i] {
      HexOf(id, i);
    }
  }

  lemma SameHexChar(a: char, b: char)
    requires IsHex(a) && IsHex(b) && HexValue(a) == HexValue(b)
    ensures a == b
  {
  }

  /** Reading and then writing gives the digits back: the two are inverse on 32 digits. */
  lemma HexUnhex(s: string)
    requires |s| == 32 && AllHex(s)
    ensures |Unhex(s)| == 16 && Hex(Unhex(s)) == s
  {
    var id := Unhex(s);
    HexOf(id, 0);
    forall k | 0 <= k < 32 ensures Hex(id)[k] == s[k] {
      var i := k / 2;
      HexOf(id, i);
      assert id[i] as int == HexValue(s[2 * i]) * 16 + HexValue(s[2 * i + 1]);
      SameHexChar(Hex(id)[2 * i], s[2 * i]);
      SameHexChar(Hex(id)[2 * i + 1], s[2 * i + 1]);
    }
  }

  predicate SixDigits(s: string)
  {
    |s| == 6 && forall i :: 0 <= i < 6 ==> '0' <= s[i] <= '9'
  }

  function LowerChar(c: char): char
  {
    if 'A' <= c <= 'Z' then (c as int + 32) as char else c
  }

  function Lower(s: string): (t: string)
    ensures |t| == |s| && forall i :: 0 <= i < |s| ==> t[i] == LowerChar(s[i])
  {
    seq(|s|, i requires 0 <= i < |s| => LowerChar(s[i]))
  }

  /** The fragment as it is read: one leading `#` dropped, in lower case. */
  function Plain(fragment: string): string
  {
    Lower(if "#" <= fragment then fragment[1..] else fragment)
  }

  function ParseInvitation(fragment: string): (r: Result<Parsed, InvitationError>)
    ensures r.Ok? && r.value.code.Some? ==> SixDigits(r.value.code.value)
  {
    ParsePlainText(Plain(fragment))
  }

  function ParsePlainText(s: string): (r: Result<Parsed, InvitationError>)
    ensures r.Ok? && r.value.code.Some? ==> SixDigits(r.value.code.value)
  {
    if |s| == 32 && AllHex(s) then Ok(Parsed(Unhex(s), None))
    else if |s| == 39 && AllHex(s[..32]) && s[32] == '~' && SixDigits(s[33..]) then Ok(Parsed(Unhex(s[..32]), Some(s[33..])))
    else Err(MalformedInvitation)
  }

  function Written(id: Bytes, code: Option<string>): string
  {
    Hex(id) + if code.Some? then "~" + code.value else ""
  }

  lemma ParsedIsWritten(s: string, id: Bytes, code: Option<string>)
    requires ParsePlainText(s) == Ok(Parsed(id, code))
    ensures |id| == Codec.CONVERSATION_ID_BYTES && s == Written(id, code)
  {
    if code.Some? {
      HexUnhex(s[..32]);
      assert s == s[..32] + "~" + s[33..];
    } else {
      HexUnhex(s);
    }
  }

  lemma WrittenParses(id: Bytes, code: Option<string>)
    requires |id| == Codec.CONVERSATION_ID_BYTES && (code.Some? ==> SixDigits(code.value))
    ensures ParsePlainText(Written(id, code)) == Ok(Parsed(id, code))
  {
    UnhexHex(id);
    var s := Written(id, code);
    if code.Some? {
      assert s[..32] == Hex(id) && s[32] == '~' && s[33..] == code.value;
    } else {
      assert s == Hex(id);
    }
  }

  /** Exactly which fragments are accepted, and as what: in any letter case and with or without a leading
      `#`, the digits of an id, alone or followed by `~` and a six-digit code. */
  lemma ParsesExactly(fragment: string, id: Bytes, code: Option<string>)
    ensures ParseInvitation(fragment) == Ok(Parsed(id, code))
       <==> |id| == Codec.CONVERSATION_ID_BYTES && (code.Some? ==> SixDigits(code.value)) && Plain(fragment) == Written(id, code)
  {
    if ParseInvitation(fragment) == Ok(Parsed(id, code)) {
      ParsedIsWritten(Plain(fragment), id, code);
    } else if |id| == Codec.CONVERSATION_ID_BYTES && (code.Some? ==> SixDigits(code.value)) && Plain(fragment) == Written(id, code) {
      WrittenParses(id, code);
    }
  }

  function FormatInvitation(id: Bytes, baseUrl: string): string
  {
    Trimmed(baseUrl) + "#" + Hex(id)
  }

  function FormatCodedInvitation(id: Bytes, baseUrl: string, code: string): string
  {
    if code == "" then FormatInvitation(id, baseUrl) else FormatInvitation(id, baseUrl) + "~" + code
  }

  /** What follows the last `#`, or everything. */
  function AfterHash(link: string): string
  {
    if link == "" then ""
    else if link[|link| - 1] == '#' then ""
    else AfterHash(link[..|link| - 1]) + [link[|link| - 1]]
  }

  lemma {:induction false} AfterHashIs(base: string, tail: string)
    requires forall i :: 0 <= i < |tail| ==> tail[i] != '#'
    ensures AfterHash(base + "#" + tail) == tail
    decreases |tail|
  {
    var link := base + "#" + tail;
    if tail != "" {
      var last := |tail| - 1;
      AfterHashIs(base, tail[..last]);
      assert link[..|link| - 1] == base + "#" + tail[..last];
    }
  }

  /** How `join` reads a link. */
  function ParseLink(link: string): Result<Parsed, InvitationError>
  {
    ParseInvitation(AfterHash(link))
  }

  lemma LowerSame(s: string)
    requires forall i :: 0 <= i < |s| ==> IsHex(s[i]) || s[i] == '~'
    ensures Lower(s) == s
  {
  }

  lemma ParsePlain(s: string)
    requires |s| == 32 && AllHex(s)
    ensures ParseInvitation(s) == Ok(Parsed(Unhex(s), None))
  {
    LowerSame(s);
    assert s[0] != '#';
  }

  lemma ParseCoded(s: string, code: string)
    requires |s| == 32 && AllHex(s) && SixDigits(code)
    ensures ParseInvitation(s + "~" + code) == Ok(Parsed(Unhex(s), Some(code)))
  {
    var tail := s + "~" + code;
    assert tail[0] == s[0] != '#';
    LowerSame(tail);
    assert tail[..32] == s && tail[33..] == code && tail[32] == '~';
  }

  function Trimmed(baseUrl: string): string
  {
    if baseUrl != "" && baseUrl[|baseUrl| - 1] == '#' then baseUrl[..|baseUrl| - 1] else baseUrl
  }

  /** A plain link gives its id back, for any base URL, also one that contains or ends with `#`. */
  lemma PlainRoundTrip(id: Bytes, baseUrl: string)
    requires |id| == Codec.CONVERSATION_ID_BYTES
    ensures ParseLink(FormatInvitation(id, baseUrl)) == Ok(Parsed(id, None))
  {
    UnhexHex(id);
    AfterHashIs(Trimmed(baseUrl), Hex(id));
    ParsePlain(Hex(id));
  }

  lemma CodedTail(hex: string, code: string)
    requires AllHex(hex) && SixDigits(code)
    ensures forall i :: 0 <= i < |hex + "~" + code| ==> (hex + "~" + code)[i] != '#'
  {
  }

  lemma CodedLink(base: string, hex: string, code: string)
    requires AllHex(hex) && SixDigits(code)
    ensures AfterHash(base + "#" + hex + "~" + code) == hex + "~" + code
  {
    CodedTail(hex, code);
    AfterHashIs(base, hex + "~" + code);
    assert base + "#" + (hex + "~" + code) == base + "#" + hex + "~" + code;
  }

  lemma CodedParses(id: Bytes, baseUrl: string, code: string)
    requires |id| == Codec.CONVERSATION_ID_BYTES && SixDigits(code)
    ensures ParseLink(FormatCodedInvitation(id, baseUrl, code)) == Ok(Parsed(id, Some(code)))
  {
    UnhexHex(id);
    CodedLink(Trimmed(baseUrl), Hex(id), code);
    ParseCoded(Hex(id), code);
  }

  /** A coded link gives its id and code back exactly when the code is six digits. */
  lemma CodedRoundTrip(id: Bytes, baseUrl: string, code: string)
    requires |id| == Codec.CONVERSATION_ID_BYTES && code != ""
    ensures ParseLink(FormatCodedInvitation(id, baseUrl, code)) == Ok(Parsed(id, Some(code))) <==> SixDigits(code)
  {
    var link := FormatCodedInvitation(id, baseUrl, code);
    if SixDigits(code) {
      CodedParses(id, baseUrl, code);
    } else if ParseLink(link) == Ok(Parsed(id, Some(code))) {
      ParsesExactly(AfterHash(link), id, Some(code));
      assert false;
    }
  }
}
