/** The token bucket that limits credential minting, in a table bounded by least-recently-used eviction
    (`server/ice-config.ts`). */
module RateLimit {
  import opened Bytes

  const RATE_BUCKET_CAPACITY: int := 20
  const RATE_REFILL_INTERVAL_MS: int := 6000
  const RATE_TRACKER_MAX_IPS: int := 10000

  datatype Entry = Entry(ip: string, tokens: int, lastRefillMs: int)

  /** The table in insertion order, as a JavaScript map keeps it. */
  type Table = seq<Entry>

  function Find(t: Table, ip: string): (at: Option<nat>)
    ensures at.Some? ==> at.value < |t| && t[at.value].ip == ip
    ensures at.None? ==> forall i :: 0 <= i < |t| ==> t[i].ip != ip
  {
    if t == [] then None
    else if t[0].ip == ip then Some(0)
    else
      var rest := Find(t[1..], ip);
      if rest.Some? then Some(rest.value + 1) else None
  }

  function Without(t: Table, at: nat): Table
    requires at < |t|
  {
    t[..at] + t[at + 1..]
  }

  /** One bucket at one hit: granted or not, and what is left. */
  function Refilled(e: Entry, now: int): int
  {
    var more := e.tokens + (now - e.lastRefillMs) / RATE_REFILL_INTERVAL_MS;
    if more < RATE_BUCKET_CAPACITY then more else RATE_BUCKET_CAPACITY
  }

  function Used(e: Entry, now: int): Entry
  {
    if Refilled(e, now) <= 0 then
      e.(tokens := 0, lastRefillMs := now - (now - e.lastRefillMs) % RATE_REFILL_INTERVAL_MS)
    else e.(tokens := Refilled(e, now) - 1, lastRefillMs := now)
  }

  predicate Granted(t: Table, ip: string, now: int)
  {
    Find(t, ip).Some? ==> Refilled(t[Find(t, ip).value], now) > 0
  }

  /** The entries a hit does not touch: all but its own, or all but the oldest when a new one needs room. */
  function Kept(t: Table, ip: string): Table
  {
    var at := Find(t, ip);
    if at.Some? then Without(t, at.value) else if |t| >= RATE_TRACKER_MAX_IPS then t[1..] else t
  }

  /** The entry of the key that was hit, which goes to the end. */
  function Touched(t: Table, ip: string, now: int): Entry
  {
    var at := Find(t, ip);
    if at.Some? then Used(t[at.value], now) else Entry(ip, RATE_BUCKET_CAPACITY - 1, now)
  }

  function Consume(t: Table, ip: string, now: int): Table
  {
    Kept(t, ip) + [Touched(t, ip, now)]
  }

  /** `consumeRateToken` over the module's table. */
  class RateLimiter {
    var rateBuckets: Table

    constructor ()
      ensures rateBuckets == []
    {
      rateBuckets := [];
    }

    method ConsumeRateToken(ip: string, nowMs: int) returns (granted: bool)
      modifies this
      ensures granted <==> Granted(old(rateBuckets), ip, nowMs)
      ensures rateBuckets == Consume(old(rateBuckets), ip, nowMs)
    {
      var at := Find(rateBuckets, ip);
      if at.None? {
        if |rateBuckets| >= RATE_TRACKER_MAX_IPS {
          rateBuckets := rateBuckets[1..];
        }
        rateBuckets := rateBuckets + [Entry(ip, RATE_BUCKET_CAPACITY - 1, nowMs)];
        return true;
      }
      var bucket := rateBuckets[at.value];
      rateBuckets := Without(rateBuckets, at.value);
      var elapsed := nowMs - bucket.lastRefillMs;
      var refilled := bucket.tokens + elapsed / RATE_REFILL_INTERVAL_MS;
      if refilled > RATE_BUCKET_CAPACITY {
        refilled := RATE_BUCKET_CAPACITY;
      }
      if refilled <= 0 {
        rateBuckets := rateBuckets + [bucket.(tokens := 0, lastRefillMs := nowMs - elapsed % RATE_REFILL_INTERVAL_MS)];
        return false;
      }
      rateBuckets := rateBuckets + [bucket.(tokens := refilled - 1, lastRefillMs := nowMs)];
      return true;
    }
  }

  // ----- Recency -----

  datatype Hit = Hit(ip: string, now: int)

  function After(t: Table, hits: seq<Hit>): Table
  {
    if hits == [] then t
    else
      var last := |hits| - 1;
      Consume(After(t, hits[..last]), hits[last].ip, hits[last].now)
  }

  function Keys(t: Table): seq<string>
  {
    seq(|t|, i requires 0 <= i < |t| => t[i].ip)
  }

  function Dropped(keys: seq<string>, ip: string): seq<string>
  {
    if keys == [] then []
    else if keys[0] == ip then Dropped(keys[1..], ip)
    else [keys[0]] + Dropped(keys[1..], ip)
  }

  /** Every key ever used, by its last use, the longest unused first. */
  function Recency(hits: seq<Hit>): seq<string>
  {
    if hits == [] then []
    else Dropped(Recency(hits[..|hits| - 1]), hits[|hits| - 1].ip) + [hits[|hits| - 1].ip]
  }

  function Newest(keys: seq<string>): seq<string>
  {
    if |keys| <= RATE_TRACKER_MAX_IPS then keys else keys[|keys| - RATE_TRACKER_MAX_IPS..]
  }

  predicate Once(keys: seq<string>)
  {
    forall i, j :: 0 <= i < j < |keys| ==> keys[i] != keys[j]
  }

  lemma {:induction false} DroppedIs(keys: seq<string>, ip: string)
    ensures forall k :: k in Dropped(keys, ip) <==> k in keys && k != ip
    ensures Once(keys) ==> Once(Dropped(keys, ip))
    ensures ip !in keys ==> Dropped(keys, ip) == keys
  {
    if keys != [] {
      DroppedIs(keys[1..], ip);
      assert keys == [keys[0]] + keys[1..];
      if Once(keys) {
        var d := Dropped(keys[1..], ip);
        assert Once(keys[1..]);
        forall j | 0 <= j < |d| ensures d[j] != keys[0] {
          assert d[j] in d && d[j] in keys[1..];
          var i :| 0 <= i < |keys[1..]| && keys[1..][i] == d[j];
          assert keys[i + 1] == d[j];
        }
      }
    }
  }

  lemma {:induction false} DroppedAt(keys: seq<string>, at: nat)
    requires Once(keys) && at < |keys|
    ensures Dropped(keys, keys[at]) == keys[..at] + keys[at + 1..]
  {
    var ip := keys[at];
    if at == 0 {
      DroppedIs(keys[1..], ip);
      assert keys[..0] + keys[1..] == keys[1..];
    } else {
      DroppedAt(keys[1..], at - 1);
      assert keys[1..][..at - 1] == keys[1..at] && keys[1..][at..] == keys[at + 1..];
      assert keys[..at] == [keys[0]] + keys[1..at];
    }
  }

  lemma {:induction false} RecencyOnce(hits: seq<Hit>)
    ensures Once(Recency(hits))
  {
    if hits != [] {
      RecencyOnce(hits[..|hits| - 1]);
      DroppedIs(Recency(hits[..|hits| - 1]), hits[|hits| - 1].ip);
    }
  }

  /** The table is the recency order cut to its bound: the keys in it are the most recently used ones,
      the least recently used first, and there are never more than the bound. */
  lemma {:induction false} TableIsRecency(hits: seq<Hit>)
    ensures Keys(After([], hits)) == Newest(Recency(hits))
    ensures |After([], hits)| <= RATE_TRACKER_MAX_IPS
  {
    if hits != [] {
      var last := |hits| - 1;
      var t, r, ip := After([], hits[..last]), Recency(hits[..last]), hits[last].ip;
      TableIsRecency(hits[..last]);
      RecencyOnce(hits[..last]);
      assert |Keys(t)| == |t|;
      if Find(t, ip).Some? {
        TouchRecency(t, r, ip);
      } else {
        InsertRecency(t, r, ip);
      }
      KeysConsumed(t, ip, hits[last].now);
    }
  }

  lemma KeysConsumed(t: Table, ip: string, now: int)
    ensures Keys(Consume(t, ip, now)) == Keys(Kept(t, ip)) + [ip]
  {
  }

  lemma KeysTouched(t: Table, ip: string)
    requires Find(t, ip).Some?
    ensures Keys(Kept(t, ip)) == Keys(t)[..Find(t, ip).value] + Keys(t)[Find(t, ip).value + 1..]
  {
    assert |Keys(t)| == |t| && forall i :: 0 <= i < |t| ==> Keys(t)[i] == t[i].ip;
  }

  lemma KeysNew(t: Table, ip: string)
    requires Find(t, ip).None?
    ensures Keys(Kept(t, ip)) == (if |t| >= RATE_TRACKER_MAX_IPS then Keys(t)[1..] else Keys(t)) && ip !in Keys(t)
  {
    assert |Keys(t)| == |t| && forall i :: 0 <= i < |t| ==> Keys(t)[i] == t[i].ip;
  }

  lemma SuffixTouched(k: seq<string>, r: seq<string>, off: nat, at: nat, x: string)
    requires off + |k| == |r| && k == r[off..] && at < |k|
    ensures (r[..off + at] + r[off + at + 1..] + [x])[off..] == k[..at] + k[at + 1..] + [x]
  {
  }

  lemma SuffixGrown(k: seq<string>, d: seq<string>, x: string)
    requires |k| <= |d| && d[|d| - |k|..] == k
    ensures (d + [x])[|d| - |k|..] == k + [x]
    ensures k != [] ==> (d + [x])[|d| - |k| + 1..] == k[1..] + [x]
  {
  }

  lemma TouchRecency(t: Table, r: seq<string>, ip: string)
    requires Keys(t) == Newest(r) && Once(r) && Find(t, ip).Some?
    ensures Keys(Kept(t, ip)) + [ip] == Newest(Dropped(r, ip) + [ip])
  {
    var at := Find(t, ip).value;
    var k := Keys(t);
    var off := |r| - |k|;
    assert k[at] == ip && k == r[off..];
    KeysTouched(t, ip);
    DroppedAt(r, off + at);
    var n := Dropped(r, ip) + [ip];
    assert n == r[..off + at] + r[off + at + 1..] + [ip] && |n| == |r|;
    SuffixTouched(k, r, off, at, ip);
    NewestSuffix(r, n, off);
  }

  lemma NewestSuffix(r: seq<string>, n: seq<string>, off: nat)
    requires |n| == |r| && off == |r| - |Newest(r)|
    ensures Newest(n) == n[off..]
  {
  }

  lemma InsertRecency(t: Table, r: seq<string>, ip: string)
    requires Keys(t) == Newest(r) && Find(t, ip).None?
    ensures Keys(Kept(t, ip)) + [ip] == Newest(Dropped(r, ip) + [ip])
  {
    KeysNew(t, ip);
    assert |Keys(t)| == |t|;
    if |t| < RATE_TRACKER_MAX_IPS {
      assert r == Keys(t);
      DroppedIs(r, ip);
    } else {
      InsertFull(Keys(t), r, ip);
    }
  }

  lemma NewestIs(n: seq<string>, off: nat)
    requires off <= |n| && |n| - off == RATE_TRACKER_MAX_IPS
    ensures Newest(n) == n[off..]
  {
    if off == 0 {
      assert n[0..] == n;
    }
  }

  /** A full table loses its oldest key. */
  lemma InsertFull(k: seq<string>, r: seq<string>, ip: string)
    requires k == Newest(r) && |k| >= RATE_TRACKER_MAX_IPS && ip !in k
    ensures k[1..] + [ip] == Newest(Dropped(r, ip) + [ip])
  {
    var off, d := |r| - |k|, Dropped(r, ip);
    assert k == r[off..];
    DroppedSuffix(r, ip, off);
    SuffixGrown(k, d, ip);
    NewestIs(d + [ip], |d| - |k| + 1);
  }

  /** Dropping a key does not touch a suffix that does not hold it. */
  lemma {:induction false} DroppedSuffix(r: seq<string>, ip: string, off: nat)
    requires off <= |r| && ip !in r[off..]
    ensures |Dropped(r, ip)| >= |r| - off && Dropped(r, ip)[|Dropped(r, ip)| - (|r| - off)..] == r[off..]
  {
    if off == 0 {
      DroppedIs(r, ip);
    } else {
      assert r[1..][off - 1..] == r[off..];
      DroppedSuffix(r[1..], ip, off - 1);
    }
  }

  // ----- Eviction -----

  /** The keys used after the last use of `ip`. */
  function UsedSince(hits: seq<Hit>, ip: string): set<string>
  {
    if hits == [] || hits[|hits| - 1].ip == ip then {}
    else UsedSince(hits[..|hits| - 1], ip) + {hits[|hits| - 1].ip}
  }

  function Behind(keys: seq<string>, p: nat): seq<string>
    requires p < |keys|
  {
    keys[p + 1..]
  }

  /** Behind a key in the recency order stand exactly the keys used since. */
  lemma {:induction false} BehindIsSince(hits: seq<Hit>, p: nat)
    requires p < |Recency(hits)|
    ensures forall k :: k in Behind(Recency(hits), p) <==> k in UsedSince(hits, Recency(hits)[p])
  {
    var last := |hits| - 1;
    var r, ip := Recency(hits[..last]), hits[last].ip;
    var n, d := Recency(hits), Dropped(r, ip);
    RecencyOnce(hits[..last]);
    DroppedIs(r, ip);
    if p < |n| - 1 {
      assert n[p] == d[p] && d[p] in d;
      var q :| 0 <= q < |r| && r[q] == d[p];
      BehindIsSince(hits[..last], q);
      assert Behind(n, p) == Behind(d, p) + [ip];
      BehindDropped(r, ip, q, p);
    } else {
      assert Behind(n, p) == [];
    }
  }

  lemma {:induction false} BehindDropped(r: seq<string>, ip: string, q: nat, p: nat)
    requires Once(r) && q < |r| && r[q] != ip && p < |Dropped(r, ip)| && Dropped(r, ip)[p] == r[q]
    ensures forall k :: k in Behind(Dropped(r, ip), p) <==> k in Behind(r, q) && k != ip
  {
    var d, rest := Dropped(r, ip), Dropped(r[1..], ip);
    DroppedIs(r, ip);
    DroppedIs(r[1..], ip);
    if r[0] == ip {
      BehindDropped(r[1..], ip, q - 1, p);
      assert Behind(r[1..], q - 1) == Behind(r, q);
    } else if q == 0 {
      assert d == [r[0]] + rest && d[0] == d[p];
      assert p == 0;
      assert Behind(d, 0) == rest && Behind(r, 0) == r[1..];
    } else {
      assert d == [r[0]] + rest;
      assert r[q] != r[0];
      BehindDropped(r[1..], ip, q - 1, p - 1);
      assert Behind(d, p) == Behind(rest, p - 1) && Behind(r, q) == Behind(r[1..], q - 1);
    }
  }

  lemma NewestHolds(keys: seq<string>, p: nat)
    requires |keys| - RATE_TRACKER_MAX_IPS <= p < |keys|
    ensures keys[p] in Newest(keys)
  {
    assert Newest(keys)[p - (|keys| - |Newest(keys)|)] == keys[p];
  }

  /** A key is evicted only when as many distinct other keys as the table holds were used since its last
      use. */
  lemma EvictedAfterManyOthers(hits: seq<Hit>, ip: string)
    requires hits != [] && ip in Keys(After([], hits[..|hits| - 1])) && ip !in Keys(After([], hits))
    ensures ip !in UsedSince(hits, ip) && |UsedSince(hits, ip)| >= RATE_TRACKER_MAX_IPS
  {
    TableIsRecency(hits[..|hits| - 1]);
    TableIsRecency(hits);
    PushedOut(hits, ip);
  }

  lemma PushedOut(hits: seq<Hit>, ip: string)
    requires hits != [] && ip in Recency(hits[..|hits| - 1]) && ip !in Newest(Recency(hits))
    ensures ip !in UsedSince(hits, ip) && |UsedSince(hits, ip)| >= RATE_TRACKER_MAX_IPS
  {
    var n, last := Recency(hits), hits[|hits| - 1].ip;
    RecencyOnce(hits);
    DroppedIs(Recency(hits[..|hits| - 1]), last);
    NewestHolds(n, |n| - 1);
    assert ip in n;
    var p :| 0 <= p < |n| && n[p] == ip;
    if p >= |n| - RATE_TRACKER_MAX_IPS {
      NewestHolds(n, p);
      assert false;
    }
    BehindIsSince(hits, p);
    CountOnce(Behind(n, p));
    var behind := set k | k in Behind(n, p);
    assert behind == UsedSince(hits, ip);
  }

  lemma {:induction false} CountOnce(keys: seq<string>)
    requires Once(keys)
    ensures |set k | k in keys| == |keys|
  {
    if keys != [] {
      CountOnce(keys[1..]);
      assert (set k | k in keys) == {keys[0]} + (set k | k in keys[1..]);
      assert keys[0] !in keys[1..];
    } else {
      assert (set k | k in keys) == {};
    }
  }

  // ----- The rate -----

  function GrantsTo(t: Table, hits: seq<Hit>, ip: string): nat
    decreases |hits|
  {
    if hits == [] then 0
    else (if hits[0].ip == ip && Granted(t, ip, hits[0].now) then 1 else 0)
         + GrantsTo(Consume(t, hits[0].ip, hits[0].now), hits[1..], ip)
  }

  /** The key is never evicted on the way. */
  predicate Stays(t: Table, hits: seq<Hit>, ip: string)
    decreases |hits|
  {
    Find(t, ip).Some? && (hits == [] || Stays(Consume(t, hits[0].ip, hits[0].now), hits[1..], ip))
  }

  predicate InOrder(from: int, hits: seq<Hit>, to: int)
    decreases |hits|
  {
    if hits == [] then from <= to else from <= hits[0].now && InOrder(hits[0].now, hits[1..], to)
  }

  predicate Apart(t: Table)
  {
    forall i, j :: 0 <= i < j < |t| ==> t[i].ip != t[j].ip
  }

  predicate TableOk(t: Table, now: int)
  {
    Apart(t) && forall i :: 0 <= i < |t| ==> 0 <= t[i].tokens < RATE_BUCKET_CAPACITY && t[i].lastRefillMs <= now
  }

  function Bucket(t: Table, ip: string): Entry
    requires Find(t, ip).Some?
  {
    t[Find(t, ip).value]
  }

  /** What is kept is part of the table, in order, and holds no entry of the key that was hit. */
  lemma KeptIs(t: Table, ip: string)
    requires Apart(t)
    ensures Apart(Kept(t, ip)) && forall i :: 0 <= i < |Kept(t, ip)| ==> Kept(t, ip)[i] in t && Kept(t, ip)[i].ip != ip
  {
    var k, at := Kept(t, ip), Find(t, ip);
    if at.Some? {
      assert forall i :: 0 <= i < |k| ==> k[i] == t[if i < at.value then i else i + 1];
    } else if |t| >= RATE_TRACKER_MAX_IPS {
      assert forall i :: 0 <= i < |k| ==> k[i] == t[i + 1];
    }
  }

  lemma ConsumeKeeps(t: Table, ip: string, now: int)
    requires TableOk(t, now)
    ensures TableOk(Consume(t, ip, now), now)
  {
    KeptIs(t, ip);
    assert Touched(t, ip, now).ip == ip;
  }

  lemma {:induction false} FindOnly(t: Table, at: nat)
    requires Apart(t) && at < |t|
    ensures Find(t, t[at].ip) == Some(at)
  {
    var found := Find(t, t[at].ip);
  }

  /** A hit on another key leaves this key's bucket as it is. */
  lemma OtherHit(t: Table, ip: string, other: string, now: int)
    requires TableOk(t, now) && ip != other && Find(t, ip).Some? && Find(Consume(t, other, now), ip).Some?
    ensures Bucket(Consume(t, other, now), ip) == Bucket(t, ip)
  {
    KeptIs(t, other);
    var n := Consume(t, other, now);
    var b := Find(n, ip).value;
    assert Touched(t, other, now).ip == other;
    assert n[b] == Kept(t, other)[b] && n[b] in t;
    var a :| 0 <= a < |t| && t[a] == n[b];
    FindOnly(t, a);
  }

  lemma OwnHit(t: Table, ip: string, now: int)
    requires TableOk(t, now)
    ensures Find(Consume(t, ip, now), ip).Some? && Bucket(Consume(t, ip, now), ip) == Touched(t, ip, now)
  {
    var n := Consume(t, ip, now);
    ConsumeKeeps(t, ip, now);
    assert n[|n| - 1] == Touched(t, ip, now);
    FindOnly(n, |n| - 1);
  }

  /** What a key can still be granted by time `to` is covered by its tokens and the time it has waited. */
  lemma {:induction false} Potential(t: Table, hits: seq<Hit>, ip: string, from: int, to: int)
    requires TableOk(t, from) && Stays(t, hits, ip) && InOrder(from, hits, to)
    ensures RATE_REFILL_INTERVAL_MS * GrantsTo(t, hits, ip)
         <= RATE_REFILL_INTERVAL_MS * Bucket(t, ip).tokens + (to - Bucket(t, ip).lastRefillMs)
    decreases |hits|
  {
    if hits != [] {
      var h := hits[0];
      var n := Consume(t, h.ip, h.now);
      assert TableOk(t, h.now);
      ConsumeKeeps(t, h.ip, h.now);
      Potential(n, hits[1..], ip, h.now, to);
      if h.ip == ip {
        OwnHit(t, ip, h.now);
        Spent(Bucket(t, ip), h.now);
      } else {
        OtherHit(t, ip, h.ip, h.now);
      }
    } else {
      assert InOrder(from, hits, to);
    }
  }

  /** One hit: a grant costs a whole refill interval, a refusal changes nothing. */
  lemma Spent(e: Entry, now: int)
    requires 0 <= e.tokens && e.lastRefillMs <= now
    ensures Refilled(e, now) <= 0 ==> Used(e, now) == e
    ensures Refilled(e, now) > 0 ==>
              RATE_REFILL_INTERVAL_MS * Used(e, now).tokens + (now - Used(e, now).lastRefillMs)
                <= RATE_REFILL_INTERVAL_MS * e.tokens + (now - e.lastRefillMs) - RATE_REFILL_INTERVAL_MS
  {
  }

  lemma {:induction false} LastInOrder(from: int, hits: seq<Hit>, to: int)
    requires InOrder(from, hits, to) && hits != []
    ensures InOrder(from, hits[..|hits| - 1], hits[|hits| - 1].now) && hits[|hits| - 1].now <= to
    decreases |hits|
  {
    if |hits| > 1 {
      LastInOrder(hits[0].now, hits[1..], to);
      assert hits[..|hits| - 1][1..] == hits[1..][..|hits| - 2];
    }
  }

  /** Under a clock that does not go backwards, every table reached from the empty one holds each key once,
      with a token count below the capacity and no refill in the future. */
  lemma {:induction false} ReachedTableOk(from: int, hits: seq<Hit>, to: int)
    requires InOrder(from, hits, to)
    ensures TableOk(After([], hits), to)
    decreases |hits|
  {
    if hits != [] {
      var last := |hits| - 1;
      LastInOrder(from, hits, to);
      ReachedTableOk(from, hits[..last], hits[last].now);
      ConsumeKeeps(After([], hits[..last]), hits[last].ip, hits[last].now);
    }
  }

  lemma BoundFrom(t: Table, ip: string, start: int, hits: seq<Hit>, to: int)
    requires TableOk(t, start) && Granted(t, ip, start) && InOrder(start, hits, to)
    requires Stays(Consume(t, ip, start), hits, ip)
    ensures 1 + GrantsTo(Consume(t, ip, start), hits, ip)
         <= RATE_BUCKET_CAPACITY + (to - start) / RATE_REFILL_INTERVAL_MS
  {
    var n := Consume(t, ip, start);
    ConsumeKeeps(t, ip, start);
    OwnHit(t, ip, start);
    Potential(n, hits, ip, start, to);
    assert Bucket(n, ip).lastRefillMs == start && Bucket(n, ip).tokens <= RATE_BUCKET_CAPACITY - 1;
    var g := GrantsTo(n, hits, ip);
    assert RATE_REFILL_INTERVAL_MS * (g - (RATE_BUCKET_CAPACITY - 1)) <= to - start;
  }

  /** The rate bound, over every run from the empty table: in a window that starts with a granted hit at
      `start` and ends at `to`, a key that is not evicted gets at most twenty grants and one more for each
      full refill interval. */
  lemma RateBound(from: int, before: seq<Hit>, ip: string, start: int, hits: seq<Hit>, to: int)
    requires InOrder(from, before, start) && InOrder(start, hits, to)
    requires Granted(After([], before), ip, start) && Stays(Consume(After([], before), ip, start), hits, ip)
    ensures 1 + GrantsTo(Consume(After([], before), ip, start), hits, ip)
         <= RATE_BUCKET_CAPACITY + (to - start) / RATE_REFILL_INTERVAL_MS
  {
    ReachedTableOk(from, before, start);
    BoundFrom(After([], before), ip, start, hits, to);
  }

  /** A client that waits a refill interval between hits is never refused. */
  lemma SteadyClientServed(from: int, before: seq<Hit>, ip: string, now: int)
    requires InOrder(from, before, now)
    requires var t := After([], before); Find(t, ip).Some? ==> now - Bucket(t, ip).lastRefillMs >= RATE_REFILL_INTERVAL_MS
    ensures Granted(After([], before), ip, now)
  {
    ReachedTableOk(from, before, now);
  }

  // ----- What a key can count on -----

  function HitsOf(hits: seq<Hit>, ip: string): nat
  {
    if hits == [] then 0 else (if hits[0].ip == ip then 1 else 0) + HitsOf(hits[1..], ip)
  }

  /** The tokens a key has at least: a whole bucket where the table does not hold it. */
  function Owed(t: Table, ip: string): int
  {
    if Find(t, ip).Some? then Bucket(t, ip).tokens else 20
  }

  /** One own hit: with a token it is granted and costs at most one. */
  lemma OwnHitServed(t: Table, ip: string, now: int)
    requires TableOk(t, now)
    ensures Owed(t, ip) > 0 ==> Granted(t, ip, now) && Owed(Consume(t, ip, now), ip) >= Owed(t, ip) - 1
    ensures Owed(Consume(t, ip, now), ip) >= 0
  {
    OwnHit(t, ip, now);
  }

  lemma StaysAbsent(t: Table, ip: string, other: string, now: int)
    requires Apart(t) && ip != other && forall i :: 0 <= i < |t| ==> t[i].ip != ip
    ensures forall i :: 0 <= i < |Consume(t, other, now)| ==> Consume(t, other, now)[i].ip != ip
  {
    KeptIs(t, other);
    var kept, touched := Kept(t, other), Touched(t, other, now);
    assert touched.ip == other;
    forall i | 0 <= i < |kept + [touched]| ensures (kept + [touched])[i].ip != ip {
      assert i < |kept| ==> kept[i] in t;
    }
  }

  /** A hit of another key takes no token away, even if it evicts this one. */
  lemma OtherHitServed(t: Table, ip: string, other: string, now: int)
    requires TableOk(t, now) && ip != other
    ensures Owed(Consume(t, other, now), ip) >= Owed(t, ip)
  {
    var n := Consume(t, other, now);
    if Find(t, ip).None? {
      StaysAbsent(t, ip, other, now);
    } else if Find(n, ip).Some? {
      OtherHit(t, ip, other, now);
    }
  }

  lemma {:induction false} AtLeast(t: Table, hits: seq<Hit>, ip: string, from: int, to: int)
    requires TableOk(t, from) && InOrder(from, hits, to)
    ensures GrantsTo(t, hits, ip) >= HitsOf(hits, ip) || GrantsTo(t, hits, ip) >= Owed(t, ip)
    decreases |hits|
  {
    if hits != [] {
      var h := hits[0];
      assert TableOk(t, h.now);
      ConsumeKeeps(t, h.ip, h.now);
      AtLeast(Consume(t, h.ip, h.now), hits[1..], ip, h.now, to);
      if h.ip == ip {
        OwnHitServed(t, ip, h.now);
      } else {
        OtherHitServed(t, ip, h.ip, h.now);
      }
    }
  }

  /** The burst, over every run from the empty table: a key the table does not hold is granted every one of its
      next hits up to the twentieth, however fast they come and whatever other keys do. */
  lemma BurstServed(from: int, before: seq<Hit>, ip: string, start: int, hits: seq<Hit>, to: int)
    requires InOrder(from, before, start) && InOrder(start, hits, to)
    requires ip !in Keys(After([], before))
    ensures HitsOf(hits, ip) <= 20 ==> GrantsTo(After([], before), hits, ip) == HitsOf(hits, ip)
    ensures HitsOf(hits, ip) > 20 ==> GrantsTo(After([], before), hits, ip) >= 20
  {
    var t := After([], before);
    ReachedTableOk(from, before, start);
    assert forall i :: 0 <= i < |t| ==> Keys(t)[i] == t[i].ip;
    AtLeast(t, hits, ip, start, to);
    GrantedHits(t, hits, ip);
  }

  lemma {:induction false} GrantedHits(t: Table, hits: seq<Hit>, ip: string)
    ensures GrantsTo(t, hits, ip) <= HitsOf(hits, ip)
    decreases |hits|
  {
    if hits != [] {
      GrantedHits(Consume(t, hits[0].ip, hits[0].now), hits[1..], ip);
    }
  }
}
