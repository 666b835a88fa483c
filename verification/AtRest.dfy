/** The wrapped form of the at-rest key (`crypto/at-rest.ts`) and the manager that owns the key
    (`runtime/at-rest-key-manager.ts`). */
module AtRest {
  import opened Bytes
  import Codec

  const ARGON2_SALT_BYTES: int := 16
  const AES_KEY_BYTES: int := 32
  const WRAPPED_NONCE_OFFSET: int := ARGON2_SALT_BYTES
  const WRAPPED_CIPHERTEXT_OFFSET: int := ARGON2_SALT_BYTES + Codec.GCM_NONCE_BYTES
  const WRAPPED_TOTAL_BYTES: int := WRAPPED_CIPHERTEXT_OFFSET + AES_KEY_BYTES + Codec.GCM_TAG_BYTES

  /** The primitives: the key derived from a passphrase and a salt, and authenticated encryption under
      a key and a nonce. */
  datatype Primitives = Primitives(
    kdf: (string, Bytes) -> Bytes,
    seal: (Bytes, Bytes, Bytes) -> Bytes,
    open: (Bytes, Bytes, Bytes) -> Option<Bytes>)

  /** What authenticated encryption promises of a 32-byte key: it opens under the key and nonce it was
      sealed with, and under no key to anything else; the ciphertext is one tag longer. */
  ghost predicate Sound(p: Primitives)
  {
    (forall k, n, m :: |m| == AES_KEY_BYTES ==>
       |p.seal(k, n, m)| == AES_KEY_BYTES + Codec.GCM_TAG_BYTES && p.open(k, n, p.seal(k, n, m)) == Some(m))
    && (forall k, j, n, m :: |m| == AES_KEY_BYTES && p.open(j, n, p.seal(k, n, m)).Some? ==> p.open(j, n, p.seal(k, n, m)) == Some(m))
  }

  function Wrapped(p: Primitives, passphrase: string, salt: Bytes, nonce: Bytes, key: Bytes): Bytes
  {
    salt + nonce + p.seal(p.kdf(passphrase, salt), nonce, key)
  }

  datatype UnwrapError = InvalidArgument | WrongPassphrase

  function UnwrapKey(p: Primitives, passphrase: string, wrapped: Bytes): Result<Bytes, UnwrapError>
  {
    if |wrapped| != WRAPPED_TOTAL_BYTES then Err(InvalidArgument)
    else
      var salt := wrapped[..WRAPPED_NONCE_OFFSET];
      var nonce := wrapped[WRAPPED_NONCE_OFFSET..WRAPPED_CIPHERTEXT_OFFSET];
      match p.open(p.kdf(passphrase, salt), nonce, wrapped[WRAPPED_CIPHERTEXT_OFFSET..])
      case None => Err(WrongPassphrase)
      case Some(key) => Ok(key)
  }

  /** `wrapKey` after the key derivation returned: seal what the snapshot holds and lay out salt, nonce
      and ciphertext; both secrets are wiped. */
  method FinishWrap(p: Primitives, wrappingKey: array<byte>, salt: Bytes, nonce: Bytes, keyBytes: array<byte>) returns (out: array<byte>)
    requires |salt| == ARGON2_SALT_BYTES && |nonce| == Codec.GCM_NONCE_BYTES && keyBytes.Length == AES_KEY_BYTES
    requires Sound(p) && wrappingKey != keyBytes
    modifies wrappingKey, keyBytes
    ensures fresh(out) && out[..] == salt + nonce + p.seal(old(wrappingKey[..]), nonce, old(keyBytes[..]))
    ensures forall i :: 0 <= i < keyBytes.Length ==> keyBytes[i] == 0
    ensures forall i :: 0 <= i < wrappingKey.Length ==> wrappingKey[i] == 0
  {
    var ciphertext := p.seal(wrappingKey[..], nonce, keyBytes[..]);
    out := new byte[WRAPPED_TOTAL_BYTES](_ => 0);
    SetBytes(out, 0, salt);
    assert out[..16] == salt;
    SetBytes(out, WRAPPED_NONCE_OFFSET, nonce);
    SetBytes(out, WRAPPED_CIPHERTEXT_OFFSET, ciphertext);
    assert out[..] == out[..WRAPPED_TOTAL_BYTES];
    Zeroize(wrappingKey);
    Zeroize(keyBytes);
  }

  /** The passphrase a key was wrapped under unwraps it, and no passphrase unwraps it to another key. */
  lemma UnwrapsWrapped(p: Primitives, passphrase: string, salt: Bytes, nonce: Bytes, key: Bytes, other: string)
    requires Sound(p) && |salt| == ARGON2_SALT_BYTES && |nonce| == Codec.GCM_NONCE_BYTES && |key| == AES_KEY_BYTES
    ensures UnwrapKey(p, passphrase, Wrapped(p, passphrase, salt, nonce, key)) == Ok(key)
    ensures UnwrapKey(p, other, Wrapped(p, passphrase, salt, nonce, key)) in {Ok(key), Err(WrongPassphrase)}
  {
    var w := Wrapped(p, passphrase, salt, nonce, key);
    assert w[..16] == salt && w[16..28] == nonce && w[28..] == p.seal(p.kdf(passphrase, salt), nonce, key);
  }

  // ----- The manager as a step machine -----

  datatype Stored = AutoKey(key: Bytes) | WrappedKey(wrapped: Bytes)

  /** A call suspended on the key derivation, with the mutation epoch it captured. A `setPassphrase` call
      also holds its own copy of the key. */
  datatype Pending =
    | Unlocking(epoch: nat, passphrase: string, wrapped: Bytes)
    | Wrapping(epoch: nat, passphrase: string, snapshot: Bytes)

  /** `loaded` and `original` are history: whether `ensureLoaded` ever finished, and the first key. */
  datatype Manager = Manager(
    storage: Option<Stored>,
    key: Option<Bytes>,
    locked: bool,
    epoch: nat,
    unlockFired: nat,
    lockFired: nat,
    pending: map<nat, Pending>,
    loaded: bool,
    original: Option<Bytes>)

  const NEW: Manager := Manager(None, None, false, 0, 0, 0, map[], false, None)

  datatype Event =
    | Loads(random: Bytes)
    | Locks
    | Unlocks(task: nat, passphrase: string)
    | UnlockResumes(task: nat)
    | SetsPassphrase(task: nat, passphrase: string)
    | WrapResumes(task: nat, salt: Bytes, nonce: Bytes)

  function Load(m: Manager, random: Bytes): Manager
  {
    var n := m.(loaded := true);
    if m.key.Some? then n
    else
      match m.storage
      case None => n.(storage := Some(AutoKey(random)), key := Some(random), original := Some(random))
      case Some(AutoKey(k)) => n.(key := Some(k))
      case Some(WrappedKey(_)) => n.(locked := true)
  }

  function Lock(m: Manager): Manager
  {
    m.(key := None, epoch := m.epoch + 1, locked := true, lockFired := if m.locked then m.lockFired else m.lockFired + 1)
  }

  function Unlocked(m: Manager, key: Bytes): Manager
  {
    m.(key := Some(key), locked := false, unlockFired := m.unlockFired + 1)
  }

  function Unlock(m: Manager, h: nat, passphrase: string): Manager
  {
    match m.storage
    case None => m
    case Some(AutoKey(k)) => Unlocked(m, k)
    case Some(WrappedKey(w)) => m.(pending := m.pending[h := Unlocking(m.epoch, passphrase, w)])
  }

  function UnlockResume(p: Primitives, m: Manager, h: nat): Manager
    requires h in m.pending && m.pending[h].Unlocking?
  {
    var t := m.pending[h];
    var n := m.(pending := m.pending - {h});
    match UnwrapKey(p, t.passphrase, t.wrapped)
    case Err(_) => n
    case Ok(key) => if t.epoch != m.epoch then n else Unlocked(n, key)
  }

  function SetPassphrase(m: Manager, h: nat, passphrase: string): Manager
  {
    if m.key.None? then m
    else m.(pending := m.pending[h := Wrapping(m.epoch, passphrase, m.key.value)])
  }

  function WrapResume(p: Primitives, m: Manager, h: nat, salt: Bytes, nonce: Bytes): Manager
    requires h in m.pending && m.pending[h].Wrapping?
  {
    var t := m.pending[h];
    var n := m.(pending := m.pending - {h}, storage := Some(WrappedKey(Wrapped(p, t.passphrase, salt, nonce, t.snapshot))));
    if t.epoch != m.epoch then n else n.(locked := false)
  }

  predicate Enabled(m: Manager, e: Event)
  {
    match e
    case Loads(random) => |random| == AES_KEY_BYTES
    case Locks => true
    case Unlocks(h, _) => h !in m.pending
    case UnlockResumes(h) => h in m.pending && m.pending[h].Unlocking?
    case SetsPassphrase(h, _) => h !in m.pending
    case WrapResumes(h, salt, nonce) =>
      h in m.pending && m.pending[h].Wrapping? && |salt| == ARGON2_SALT_BYTES && |nonce| == Codec.GCM_NONCE_BYTES
  }

  function Next(p: Primitives, m: Manager, e: Event): Manager
    requires Enabled(m, e)
  {
    match e
    case Loads(random) => Load(m, random)
    case Locks => Lock(m)
    case Unlocks(h, passphrase) => Unlock(m, h, passphrase)
    case UnlockResumes(h) => UnlockResume(p, m, h)
    case SetsPassphrase(h, passphrase) => SetPassphrase(m, h, passphrase)
    case WrapResumes(h, salt, nonce) => WrapResume(p, m, h, salt, nonce)
  }

  /** `wrapped` is the key `key`, under some passphrase. */
  ghost predicate Seals(p: Primitives, wrapped: Bytes, key: Bytes)
  {
    exists q, salt, nonce :: |salt| == ARGON2_SALT_BYTES && |nonce| == Codec.GCM_NONCE_BYTES && wrapped == Wrapped(p, q, salt, nonce, key)
  }

  /** There is one key. What is in memory, in storage, sealed in storage, or copied by a suspended call is
      that key; and once loaded, the manager holds it or is locked. */
  ghost predicate Inv(p: Primitives, m: Manager)
  {
    (m.storage.Some? <==> m.original.Some?)
    && (m.original.Some? ==> |m.original.value| == AES_KEY_BYTES)
    && (m.key.Some? ==> m.key == m.original)
    && (m.storage.Some? && m.storage.value.AutoKey? ==> Some(m.storage.value.key) == m.original)
    && (m.storage.Some? && m.storage.value.WrappedKey? ==> Seals(p, m.storage.value.wrapped, m.original.value))
    && (m.loaded ==> m.original.Some? && (m.key.Some? || m.locked))
    && (forall h :: h in m.pending ==> PendingOk(p, m, m.pending[h]))
  }

  ghost predicate PendingOk(p: Primitives, m: Manager, t: Pending)
  {
    m.original.Some? && t.epoch <= m.epoch
    && match t
       case Unlocking(_, _, wrapped) => Seals(p, wrapped, m.original.value)
       case Wrapping(_, _, snapshot) => snapshot == m.original.value && (t.epoch == m.epoch ==> m.key.Some?)
  }

  lemma UnlockResumeKeeps(p: Primitives, m: Manager, h: nat)
    requires Sound(p) && Inv(p, m) && Enabled(m, UnlockResumes(h))
    ensures Inv(p, UnlockResume(p, m, h))
  {
    var t := m.pending[h];
    assert PendingOk(p, m, t);
    var q, salt, nonce :| |salt| == ARGON2_SALT_BYTES && |nonce| == Codec.GCM_NONCE_BYTES
                          && t.wrapped == Wrapped(p, q, salt, nonce, m.original.value);
    UnwrapsWrapped(p, q, salt, nonce, m.original.value, t.passphrase);
  }

  lemma WrapResumeKeeps(p: Primitives, m: Manager, h: nat, salt: Bytes, nonce: Bytes)
    requires Inv(p, m) && Enabled(m, WrapResumes(h, salt, nonce))
    ensures Inv(p, WrapResume(p, m, h, salt, nonce))
  {
    assert PendingOk(p, m, m.pending[h]);
  }

  lemma NextKeeps(p: Primitives, m: Manager, e: Event)
    requires Sound(p) && Inv(p, m) && Enabled(m, e)
    ensures Inv(p, Next(p, m, e))
  {
    match e
    case UnlockResumes(h) => UnlockResumeKeeps(p, m, h);
    case WrapResumes(h, salt, nonce) => WrapResumeKeeps(p, m, h, salt, nonce);
    case _ =>
  }

  ghost predicate Trace(p: Primitives, m: Manager, es: seq<Event>)
    decreases |es|
  {
    es == [] || (Enabled(m, es[0]) && Trace(p, Next(p, m, es[0]), es[1..]))
  }

  ghost function After(p: Primitives, m: Manager, es: seq<Event>): Manager
    requires Trace(p, m, es)
    decreases |es|
  {
    if es == [] then m else After(p, Next(p, m, es[0]), es[1..])
  }

  lemma {:induction false} RunKeeps(p: Primitives, m: Manager, es: seq<Event>)
    requires Sound(p) && Inv(p, m) && Trace(p, m, es)
    ensures Inv(p, After(p, m, es)) && After(p, m, es).epoch >= m.epoch
    decreases |es|
  {
    if es != [] {
      NextKeeps(p, m, es[0]);
      RunKeeps(p, Next(p, m, es[0]), es[1..]);
    }
  }

  /** One key, over every run: storage holds the first key, in the clear or sealed; the key in memory is
      that key; and once loaded, an unlocked manager has it. */
  lemma OneKey(p: Primitives, es: seq<Event>)
    requires Sound(p) && Trace(p, NEW, es)
    ensures var m := After(p, NEW, es);
            (m.storage.Some? ==> m.original.Some? && match m.storage.value
                                   case AutoKey(k) => k == m.original.value
                                   case WrappedKey(w) => Seals(p, w, m.original.value))
            && (m.key.Some? ==> m.key == m.original)
            && (m.loaded && !m.locked ==> m.key.Some?)
  {
    RunKeeps(p, NEW, es);
  }

  function Owner(e: Event): Option<nat>
  {
    match e
    case UnlockResumes(h) => Some(h)
    case WrapResumes(h, _, _) => Some(h)
    case _ => None
  }

  /** A suspended call keeps the epoch it captured until it resumes. */
  lemma {:induction false} StillPending(p: Primitives, m: Manager, es: seq<Event>, h: nat)
    requires Trace(p, m, es) && h in m.pending
    requires forall i :: 0 <= i < |es| ==> Owner(es[i]) != Some(h)
    ensures h in After(p, m, es).pending && After(p, m, es).pending[h] == m.pending[h]
    ensures After(p, m, es).epoch >= m.epoch + if Locks in es then 1 else 0
    decreases |es|
  {
    if es != [] {
      assert es == [es[0]] + es[1..];
      StillPending(p, Next(p, m, es[0]), es[1..], h);
    }
  }

  /** A lock supersedes. A call that was suspended before a lock, whatever else happens before it resumes,
      leaves the lock, the key in memory and the unlock listeners as it finds them. */
  lemma LockSupersedes(p: Primitives, m: Manager, es: seq<Event>, h: nat, e: Event)
    requires Sound(p) && Inv(p, m) && h in m.pending && Trace(p, m, es) && Locks in es
    requires forall i :: 0 <= i < |es| ==> Owner(es[i]) != Some(h)
    requires Owner(e) == Some(h) && Enabled(After(p, m, es), e)
    ensures var before, after := After(p, m, es), Next(p, After(p, m, es), e);
            after.locked == before.locked && after.key == before.key && after.unlockFired == before.unlockFired
  {
    StillPending(p, m, es, h);
    assert PendingOk(p, m, m.pending[h]);
  }

  lemma {:induction false} Prefix(p: Primitives, m: Manager, es: seq<Event>, k: nat)
    requires Trace(p, m, es) && k <= |es|
    ensures Trace(p, m, es[..k])
    ensures k < |es| ==> Enabled(After(p, m, es[..k]), es[k])
    ensures k < |es| ==> Trace(p, m, es[..k + 1]) && After(p, m, es[..k + 1]) == Next(p, After(p, m, es[..k]), es[k])
    decreases |es|
  {
    if k > 0 {
      Prefix(p, Next(p, m, es[0]), es[1..], k - 1);
      assert es[..k][1..] == es[1..][..k - 1] && es[..k][0] == es[0];
      if k < |es| {
        assert es[..k + 1][1..] == es[1..][..k] && es[..k + 1][0] == es[0] && es[k] == es[1..][k - 1];
      }
    } else if es != [] {
      assert es[..1][1..] == [] && es[..0] == [];
      assert After(p, Next(p, m, es[0]), []) == Next(p, m, es[0]);
    }
  }

  /** The manager after the first `k` steps. */
  ghost function Upto(p: Primitives, m: Manager, es: seq<Event>, k: nat): Manager
    requires Trace(p, m, es) && k <= |es|
  {
    Prefix(p, m, es, k);
    After(p, m, es[..k])
  }

  /** The call at `i` set a passphrase on a locked manager that holds the key, and at `j` its wrap came
      back with no lock in between. */
  ghost predicate OpensLock(p: Primitives, m: Manager, es: seq<Event>, i: nat, j: nat)
    requires Trace(p, m, es)
  {
    i < j < |es| && es[i].SetsPassphrase? && es[j].WrapResumes? && es[j].task == es[i].task
    && Upto(p, m, es, i).locked && Upto(p, m, es, i).key.Some?
    && forall k :: i < k < j ==> es[k] != Locks && Owner(es[k]) != Some(es[i].task)
  }

  /** Task `h` is a wrap that will open the lock when it returns; the call that began it is at `i`. */
  ghost predicate Armed(p: Primitives, m: Manager, es: seq<Event>, n: nat, h: nat, i: nat)
    requires Trace(p, m, es) && n <= |es|
  {
    i < n && es[i].SetsPassphrase? && es[i].task == h && Upto(p, m, es, i).key.Some?
    && forall k :: i < k < n ==> es[k] != Locks && Owner(es[k]) != Some(h)
  }

  predicate Current(m: Manager, h: nat)
  {
    h in m.pending && m.pending[h].Wrapping? && m.pending[h].epoch == m.epoch
  }

  predicate Past(m: Manager)
  {
    forall g :: g in m.pending ==> m.pending[g].epoch <= m.epoch
  }

  lemma CurrentNext(p: Primitives, m: Manager, e: Event, h: nat)
    requires Enabled(m, e) && Past(m)
    ensures Past(Next(p, m, e))
    ensures Current(Next(p, m, e), h)
       <==> (e.SetsPassphrase? && e.task == h && m.key.Some?) || (Current(m, h) && e != Locks && Owner(e) != Some(h))
  {
  }

  /** After a lock, the wraps of the present epoch are those begun since the last lock. */
  lemma {:induction false} CurrentIsArmed(p: Primitives, m: Manager, es: seq<Event>, n: nat, h: nat)
    requires Trace(p, m, es) && n <= |es| && forall g :: g in m.pending ==> m.pending[g].epoch < m.epoch
    ensures Past(Upto(p, m, es, n)) && (Current(Upto(p, m, es, n), h) <==> exists i: nat :: Armed(p, m, es, n, h, i))
  {
    if n > 0 {
      var last := n - 1;
      CurrentIsArmed(p, m, es, last, h);
      Prefix(p, m, es, last);
      CurrentNext(p, Upto(p, m, es, last), es[last], h);
      if i: nat :| Armed(p, m, es, last, h, i) && es[last] != Locks && Owner(es[last]) != Some(h) {
        assert Armed(p, m, es, n, h, i);
      }
      if es[last].SetsPassphrase? && es[last].task == h && Upto(p, m, es, last).key.Some? {
        assert Armed(p, m, es, n, h, last);
      }
      if i: nat :| Armed(p, m, es, n, h, i) && i < last {
        assert Armed(p, m, es, last, h, i);
      }
    }
  }

  /** As long as nothing opened the lock in this way, it is closed. */
  lemma {:induction false} ClosedOrOpened(p: Primitives, m: Manager, es: seq<Event>, n: nat)
    requires Trace(p, m, es) && n <= |es| && m.locked && forall g :: g in m.pending ==> m.pending[g].epoch < m.epoch
    requires forall i :: 0 <= i < |es| ==> !es[i].Unlocks? && !es[i].UnlockResumes?
    ensures (forall k :: 0 <= k <= n ==> Upto(p, m, es, k).locked) || exists i: nat, j: nat :: j < n && OpensLock(p, m, es, i, j)
  {
    if n > 0 {
      var last := n - 1;
      ClosedOrOpened(p, m, es, last);
      if (forall k :: 0 <= k <= last ==> Upto(p, m, es, k).locked) && !Upto(p, m, es, n).locked {
        Prefix(p, m, es, last);
        var e := es[last];
        assert Upto(p, m, es, n) == Next(p, Upto(p, m, es, last), e) && !e.Unlocks? && !e.UnlockResumes?;
        assert e.WrapResumes?;
        var h := e.task;
        CurrentIsArmed(p, m, es, last, h);
        var i: nat :| Armed(p, m, es, last, h, i);
        assert OpensLock(p, m, es, i, last);
      }
    }
  }

  /** How long a lock holds. From any lock on, over every run in which nobody unlocks, the manager is ever
      found open if and only if someone set a passphrase while it was locked with the key in memory, and
      that call's wrap came back before the next lock. */
  lemma LockHoldsUnless(p: Primitives, before: Manager, es: seq<Event>)
    requires Inv(p, before) && Trace(p, Lock(before), es)
    requires forall i :: 0 <= i < |es| ==> !es[i].Unlocks? && !es[i].UnlockResumes?
    ensures (exists n :: 0 <= n <= |es| && !Upto(p, Lock(before), es, n).locked)
       <==> exists i: nat, j: nat :: OpensLock(p, Lock(before), es, i, j)
  {
    var m := Lock(before);
    forall g | g in m.pending ensures m.pending[g].epoch < m.epoch {
      assert PendingOk(p, before, before.pending[g]);
    }
    ClosedOrOpened(p, m, es, |es|);
    if i: nat, j: nat :| OpensLock(p, m, es, i, j) {
      Prefix(p, m, es, j);
      CurrentIsArmed(p, m, es, j, es[i].task);
      assert Armed(p, m, es, j, es[i].task, i);
      assert !Upto(p, m, es, j + 1).locked;
    }
  }

  /** It does happen, where the key is stored in the clear: a load after the lock brings the key back, and
      setting a passphrase then opens the manager. */
  lemma PassphraseOpensLock(p: Primitives, key: Bytes, passphrase: string, salt: Bytes, nonce: Bytes) returns (es: seq<Event>)
    requires |key| == AES_KEY_BYTES && |salt| == ARGON2_SALT_BYTES && |nonce| == Codec.GCM_NONCE_BYTES
    ensures |es| == 5 && es[1] == Locks && forall i :: 1 < i < |es| ==> !es[i].Unlocks? && !es[i].UnlockResumes?
    ensures Trace(p, NEW, es) && !After(p, NEW, es).locked
  {
    var e1, e2, e3 := Loads(key), Locks, Loads(key);
    var e4, e5 := SetsPassphrase(0, passphrase), WrapResumes(0, salt, nonce);
    var m1 := Next(p, NEW, e1);
    var m2 := Next(p, m1, e2);
    var m3 := Next(p, m2, e3);
    var m4 := Next(p, m3, e4);
    Ahead(p, m4, e5, []);
    Ahead(p, m3, e4, [e5] + []);
    Ahead(p, m2, e3, [e4] + ([e5] + []));
    Ahead(p, m1, e2, [e3] + ([e4] + ([e5] + [])));
    Ahead(p, NEW, e1, [e2] + ([e3] + ([e4] + ([e5] + []))));
    es := [e1] + ([e2] + ([e3] + ([e4] + ([e5] + []))));
  }

  lemma Ahead(p: Primitives, m: Manager, e: Event, es: seq<Event>)
    requires Enabled(m, e) && Trace(p, Next(p, m, e), es)
    ensures Trace(p, m, [e] + es) && After(p, m, [e] + es) == After(p, Next(p, m, e), es)
  {
    assert ([e] + es)[1..] == es;
  }

  /** `m` is where a new manager stands after the steps `es`. */
  ghost predicate Reached(p: Primitives, es: seq<Event>, m: Manager)
    decreases |es|
  {
    if es == [] then m == NEW
    else
      var last := |es| - 1;
      exists r :: Reached(p, es[..last], r) && Enabled(r, es[last]) && m == Next(p, r, es[last])
  }

  lemma ReachedNext(p: Primitives, es: seq<Event>, m: Manager, e: Event)
    requires Reached(p, es, m) && Enabled(m, e)
    ensures Reached(p, es + [e], Next(p, m, e))
  {
    assert (es + [e])[..|es|] == es;
  }

  lemma {:induction false} ReachedInv(p: Primitives, es: seq<Event>, m: Manager)
    requires Sound(p) && Reached(p, es, m)
    ensures Inv(p, m)
    decreases |es|
  {
    if es != [] {
      var last := |es| - 1;
      var r :| Reached(p, es[..last], r) && Enabled(r, es[last]) && m == Next(p, r, es[last]);
      ReachedInv(p, es[..last], r);
      NextKeeps(p, r, es[last]);
    }
  }

  /** What the manager relies on: keys are 32 bytes, the key in memory is the first one, and so is every
      suspended copy. */
  lemma KeysAre(p: Primitives, es: seq<Event>, m: Manager)
    requires Sound(p) && Reached(p, es, m)
    ensures m.key.Some? ==> m.key == m.original && |m.key.value| == AES_KEY_BYTES
    ensures m.storage.Some? && m.storage.value.AutoKey? ==> |m.storage.value.key| == AES_KEY_BYTES
    ensures forall h :: h in m.pending && m.pending[h].Wrapping? ==> |m.pending[h].snapshot| == AES_KEY_BYTES
    ensures forall h :: h in m.pending && m.pending[h].Unlocking? ==>
              match UnwrapKey(p, m.pending[h].passphrase, m.pending[h].wrapped)
              case Ok(k) => |k| == AES_KEY_BYTES
              case Err(_) => true
  {
    ReachedInv(p, es, m);
    forall h | h in m.pending
      ensures m.pending[h].Wrapping? ==> |m.pending[h].snapshot| == AES_KEY_BYTES
      ensures m.pending[h].Unlocking? ==>
                match UnwrapKey(p, m.pending[h].passphrase, m.pending[h].wrapped)
                case Ok(k) => |k| == AES_KEY_BYTES
                case Err(_) => true
    {
      var t := m.pending[h];
      assert PendingOk(p, m, t);
      if t.Unlocking? {
        var q, salt, nonce :| |salt| == ARGON2_SALT_BYTES && |nonce| == Codec.GCM_NONCE_BYTES
                              && t.wrapped == Wrapped(p, q, salt, nonce, m.original.value);
        UnwrapsWrapped(p, q, salt, nonce, m.original.value, t.passphrase);
      }
    }
  }

  // ----- The manager -----

  /** A suspended call. The copy a `setPassphrase` call made of the key is a buffer of its own. */
  datatype Suspended =
    | UnlockCall(epoch: nat, passphrase: string, wrapped: Bytes)
    | WrapCall(epoch: nat, passphrase: string, snapshot: array<byte>)

  class AtRestKeyManager {
    const p: Primitives

    var storage: Option<Stored>
    var autoKey: array?<byte>
    var locked: bool
    var mutationEpoch: nat
    var unlockFired: nat
    var lockFired: nat
    var tasks: map<nat, Suspended>

    /** The buffer the repository got from `get`, which its lock listener wipes in place. */
    var shared: array?<byte>

    ghost var pending: map<nat, Pending>
    ghost var snapshots: set<array<byte>>
    ghost var loaded: bool
    ghost var original: Option<Bytes>

    ghost var events: seq<Event>

    ghost function View(): Manager
      reads this`storage, this`autoKey, this`locked, this`mutationEpoch, this`unlockFired, this`lockFired
      reads this`pending, this`loaded, this`original, autoKey
    {
      Manager(storage, if autoKey == null then None else Some(autoKey[..]), locked, mutationEpoch, unlockFired, lockFired,
              pending, loaded, original)
    }

    ghost predicate Shows(t: Suspended, v: Pending)
      reads this`snapshots, snapshots
    {
      match t
      case UnlockCall(epoch, passphrase, wrapped) => v == Unlocking(epoch, passphrase, wrapped)
      case WrapCall(epoch, passphrase, snapshot) => snapshot in snapshots && v == Wrapping(epoch, passphrase, snapshot[..])
    }

    /** Every suspended `setPassphrase` call has a buffer of its own, apart from the one in memory and the
        one the repository holds. */
    ghost predicate Apart()
      reads this`tasks, this`pending, this`snapshots, this`autoKey, this`shared, snapshots
    {
      tasks.Keys == pending.Keys
      && (forall h :: h in tasks ==> Shows(tasks[h], pending[h]))
      && (forall h, k :: h in tasks && k in tasks && h != k && tasks[h].WrapCall? && tasks[k].WrapCall? ==> tasks[h].snapshot != tasks[k].snapshot)
      && (autoKey != null ==> autoKey !in snapshots)
      && (shared != null ==> shared !in snapshots)
    }

    /** The state is one that the step machine reaches. */
    ghost predicate Valid()
      reads this, autoKey, snapshots
    {
      Apart() && Sound(p) && Reached(p, events, View())
    }

    constructor (p: Primitives)
      requires Sound(p)
      ensures Valid() && View() == NEW && this.p == p
    {
      this.p := p;
      storage, autoKey, locked, mutationEpoch, unlockFired, lockFired := None, null, false, 0, 0, 0;
      tasks, shared, pending, snapshots, loaded, original, events := map[], null, map[], {}, false, None, [];
    }

    ghost method Record(e: Event)
      requires Sound(p) && Reached(p, events, View()) && Enabled(View(), e)
      modifies this`events
      ensures Reached(p, events, Next(p, old(View()), e)) && View() == old(View())
    {
      ReachedNext(p, events, View(), e);
      events := events + [e];
    }

    /** A new buffer with the key comes into memory. */
    method Keep(key: Bytes)
      requires Apart()
      modifies this`autoKey
      ensures Apart() && autoKey != null && fresh(autoKey) && autoKey[..] == key
    {
      autoKey := NewBuffer(key);
    }

    method EnsureLoaded(random: Bytes)
      requires Valid() && |random| == AES_KEY_BYTES
      modifies this`storage, this`autoKey, this`locked, this`loaded, this`original, this`events
      ensures Valid() && View() == Next(p, old(View()), Loads(random))
    {
      Record(Loads(random));
      loaded := true;
      if autoKey != null {
        return;
      }
      LoadStored(random);
    }

    method LoadStored(random: Bytes)
      requires Apart() && autoKey == null && loaded
      modifies this`storage, this`autoKey, this`locked, this`original
      ensures Apart() && View() == Load(old(View()), random)
    {
      match storage
      case None =>
        storage := Some(AutoKey(random));
        original := Some(random);
        Keep(random);
      case Some(AutoKey(k)) =>
        Keep(k);
      case Some(WrappedKey(_)) =>
        locked := true;
    }

    /** `get`: the repository keeps the buffer itself, and it holds the one key. */
    method Get() returns (key: array?<byte>)
      requires Valid()
      modifies this`shared
      ensures Valid() && View() == old(View())
      ensures if locked || autoKey == null then key == null else key == autoKey && View().original == Some(key[..])
    {
      KeysAre(p, events, View());
      if locked || autoKey == null {
        return null;
      }
      shared := autoKey;
      return autoKey;
    }

    /** `lock`. Its listener wipes the repository's buffer in place; a suspended wrap does not notice. */
    method LockNow()
      requires Valid()
      modifies this`autoKey, this`mutationEpoch, this`locked, this`lockFired, this`events, shared
      ensures Valid() && View() == Next(p, old(View()), Locks)
      ensures shared != null && !old(locked) ==> forall i :: 0 <= i < shared.Length ==> shared[i] == 0
    {
      Record(Locks);
      DropKey();
    }

    method DropKey()
      requires Apart()
      modifies this`autoKey, this`mutationEpoch, this`locked, this`lockFired, shared
      ensures Apart() && View() == Lock(old(View()))
      ensures shared != null && !old(locked) ==> forall i :: 0 <= i < shared.Length ==> shared[i] == 0
    {
      autoKey := null;
      mutationEpoch := mutationEpoch + 1;
      var wasLocked := locked;
      locked := true;
      if !wasLocked {
        lockFired := lockFired + 1;
        NotifyLocked();
      }
    }

    method NotifyLocked()
      requires Apart() && autoKey == null
      modifies shared
      ensures Apart()
      ensures shared != null ==> forall i :: 0 <= i < shared.Length ==> shared[i] == 0
    {
      if shared != null {
        Zeroize(shared);
      }
    }

    method Suspend(task: nat, t: Suspended, ghost v: Pending)
      requires Apart() && task !in tasks && Shows(t, v)
      requires t.WrapCall? ==> forall h :: h in tasks && tasks[h].WrapCall? ==> tasks[h].snapshot != t.snapshot
      modifies this`tasks, this`pending
      ensures Apart() && tasks == old(tasks)[task := t] && pending == old(pending)[task := v]
    {
      tasks := tasks[task := t];
      pending := pending[task := v];
    }

    method Finish(task: nat)
      requires Apart() && task in tasks
      modifies this`tasks, this`pending
      ensures Apart() && tasks == old(tasks) - {task} && pending == old(pending) - {task}
    {
      tasks := tasks - {task};
      pending := pending - {task};
    }

    /** `unlock` up to the key derivation. */
    method UnlockStart(task: nat, passphrase: string) returns (done: Option<bool>)
      requires Valid() && task !in tasks
      modifies this`autoKey, this`locked, this`unlockFired, this`tasks, this`pending, this`events
      ensures Valid() && View() == Next(p, old(View()), Unlocks(task, passphrase))
      ensures done == if storage.None? then Some(false) else if storage.value.AutoKey? then Some(true) else None
    {
      Record(Unlocks(task, passphrase));
      match storage
      case None =>
        return Some(false);
      case Some(AutoKey(k)) =>
        BecomeUnlocked(k);
        return Some(true);
      case Some(WrappedKey(w)) =>
        Suspend(task, UnlockCall(mutationEpoch, passphrase, w), Unlocking(mutationEpoch, passphrase, w));
        return None;
    }

    method BecomeUnlocked(key: Bytes)
      requires Apart()
      modifies this`autoKey, this`locked, this`unlockFired
      ensures Apart() && View() == Unlocked(old(View()), key) && autoKey != null
    {
      Keep(key);
      locked := false;
      unlockFired := unlockFired + 1;
    }

    /** `unlock` after it. */
    method UnlockFinish(task: nat) returns (unlocked: bool)
      requires Valid() && task in tasks && tasks[task].UnlockCall?
      modifies this`autoKey, this`locked, this`unlockFired, this`tasks, this`pending, this`events
      ensures Valid() && View() == Next(p, old(View()), UnlockResumes(task))
      ensures var t := old(tasks)[task]; var r := UnwrapKey(p, t.passphrase, t.wrapped);
              (unlocked <==> r.Ok? && t.epoch == mutationEpoch)
              && (unlocked ==> !locked && autoKey != null && autoKey[..] == r.value && unlockFired == old(unlockFired) + 1)
              && (!unlocked ==> locked == old(locked) && autoKey == old(autoKey) && unlockFired == old(unlockFired))
    {
      assert Shows(tasks[task], pending[task]);
      Record(UnlockResumes(task));
      var t := tasks[task];
      Finish(task);
      var unwrapped := UnwrapKey(p, t.passphrase, t.wrapped);
      if unwrapped.Err? || t.epoch != mutationEpoch {
        return false;
      }
      BecomeUnlocked(unwrapped.value);
      return true;
    }

    /** `setPassphrase` up to the key derivation: `wrapKey` copies the key before it waits. */
    method SetPassphraseStart(task: nat, passphrase: string) returns (ok: bool)
      requires Valid() && task !in tasks
      modifies this`tasks, this`pending, this`snapshots, this`events
      ensures Valid() && View() == Next(p, old(View()), SetsPassphrase(task, passphrase))
      ensures ok <==> autoKey != null
    {
      Record(SetsPassphrase(task, passphrase));
      if autoKey == null {
        return false;
      }
      var snapshot := Snapshot(autoKey[..]);
      Suspend(task, WrapCall(mutationEpoch, passphrase, snapshot), Wrapping(mutationEpoch, passphrase, snapshot[..]));
      return true;
    }

    method Snapshot(key: Bytes) returns (snapshot: array<byte>)
      requires Apart()
      modifies this`snapshots
      ensures Apart() && fresh(snapshot) && snapshot[..] == key && snapshots == old(snapshots) + {snapshot}
    {
      snapshot := NewBuffer(key);
      snapshots := snapshots + {snapshot};
    }

    /** `setPassphrase` after it: what goes to storage seals the copy, whatever happened to the key. */
    method SetPassphraseFinish(task: nat, salt: Bytes, nonce: Bytes)
      requires Valid() && task in tasks && tasks[task].WrapCall?
      requires |salt| == ARGON2_SALT_BYTES && |nonce| == Codec.GCM_NONCE_BYTES
      modifies this`storage, this`locked, this`tasks, this`pending, this`events, tasks[task].snapshot
      ensures Valid() && View() == Next(p, old(View()), WrapResumes(task, salt, nonce))
    {
      assert Shows(tasks[task], pending[task]);
      KeysAre(p, events, View());
      Record(WrapResumes(task, salt, nonce));
      CompleteWrap(task, salt, nonce);
    }

    method CompleteWrap(task: nat, salt: Bytes, nonce: Bytes)
      requires Apart() && Sound(p) && task in tasks && tasks[task].WrapCall? && tasks[task].snapshot.Length == AES_KEY_BYTES
      requires |salt| == ARGON2_SALT_BYTES && |nonce| == Codec.GCM_NONCE_BYTES
      modifies this`storage, this`locked, this`tasks, this`pending, tasks[task].snapshot
      ensures Apart() && old(pending[task]).Wrapping? && View() == WrapResume(p, old(View()), task, salt, nonce)
    {
      assert Shows(tasks[task], pending[task]);
      var t := tasks[task];
      Finish(task);
      var wrapped := Seal(t.passphrase, salt, nonce, t.snapshot);
      Store(wrapped, t.epoch == mutationEpoch);
    }

    /** The sealed key goes to storage; the lock opens if nothing superseded the call. */
    method Store(wrapped: Bytes, current: bool)
      requires Apart()
      modifies this`storage, this`locked
      ensures Apart() && storage == Some(WrappedKey(wrapped)) && locked == (old(locked) && !current)
    {
      storage := Some(WrappedKey(wrapped));
      if current {
        locked := false;
      }
    }

    method Seal(passphrase: string, salt: Bytes, nonce: Bytes, snapshot: array<byte>) returns (wrapped: Bytes)
      requires Apart() && Sound(p) && |salt| == ARGON2_SALT_BYTES && |nonce| == Codec.GCM_NONCE_BYTES && snapshot.Length == AES_KEY_BYTES
      requires snapshot in snapshots && forall h :: h in tasks && tasks[h].WrapCall? ==> tasks[h].snapshot != snapshot
      modifies snapshot
      ensures Apart() && wrapped == Wrapped(p, passphrase, salt, nonce, old(snapshot[..]))
      ensures forall i :: 0 <= i < snapshot.Length ==> snapshot[i] == 0
    {
      var wrappingKey := NewBuffer(p.kdf(passphrase, salt));
      var out := FinishWrap(p, wrappingKey, salt, nonce, snapshot);
      wrapped := out[..];
    }
  }
}
