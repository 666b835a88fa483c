/** That the at-rest key is there when it should be (`runtime/at-rest-key-manager.ts`): what each call does
    exactly, that the right passphrase unlocks, and that a passphrase once set is the one that does. The
    laws of AtRest say what an unlock may never do. */
module AtRestProgress {
  import opened Bytes
  import opened AtRest
  import Codec

  // ----- Single steps -----

  /** Loading. A key in memory stays; otherwise the stored key comes into memory, a new one is made where there
      is none, and the manager is locked where it is sealed. */
  lemma LoadExactly(p: Primitives, m: Manager, random: Bytes)
    requires |random| == AES_KEY_BYTES
    ensures var n := Next(p, m, Loads(random));
            n.loaded && n.pending == m.pending && n.epoch == m.epoch && n.unlockFired == m.unlockFired && n.lockFired == m.lockFired
            && (m.key.Some? || (m.storage.Some? && m.storage.value.AutoKey?) ==> n.locked == m.locked && n.storage == m.storage)
            && (m.key.Some? ==> n.key == m.key)
            && (m.key.None? && m.storage.None? ==> n.key == Some(random) && n.storage == Some(AutoKey(random)) && n.locked == m.locked)
            && (m.key.None? && m.storage.Some? && m.storage.value.AutoKey? ==> n.key == Some(m.storage.value.key))
            && (m.key.None? && m.storage.Some? && m.storage.value.WrappedKey? ==> n.locked && n.key.None? && n.storage == m.storage)
  {
  }

  /** Locking drops the key and supersedes what is suspended; the listeners fire on the transition only. */
  lemma LockExactly(p: Primitives, m: Manager)
    ensures var n := Next(p, m, Locks);
            n.locked && n.key.None? && n.epoch == m.epoch + 1 && n.lockFired == m.lockFired + (if m.locked then 0 else 1)
            && n.storage == m.storage && n.pending == m.pending && n.unlockFired == m.unlockFired
  {
  }

  /** Starting an unlock: nothing without a stored key; with the key in the clear any passphrase opens at once;
      a sealed one waits for its derivation. */
  lemma UnlockExactly(p: Primitives, m: Manager, h: nat, passphrase: string)
    requires h !in m.pending
    ensures var n := Next(p, m, Unlocks(h, passphrase));
            match m.storage
            case None => n == m
            case Some(AutoKey(k)) => n == m.(key := Some(k), locked := false, unlockFired := m.unlockFired + 1)
            case Some(WrappedKey(w)) => n == m.(pending := m.pending[h := Unlocking(m.epoch, passphrase, w)])
  {
  }

  /** The passphrase opens the wrap: the derived key opens its ciphertext. */
  predicate Opens(p: Primitives, passphrase: string, w: Bytes)
  {
    |w| == 76 && p.open(p.kdf(passphrase, w[..16]), w[16..28], w[28..]).Some?
  }

  /** An unlock that resumes opens the manager, with the first key in memory and its listeners fired once more,
      exactly when its passphrase opens the wrap and no lock came since; otherwise lock, key and listeners stay. */
  lemma ResumeExactly(p: Primitives, m: Manager, h: nat)
    requires Sound(p) && Inv(p, m) && h in m.pending && m.pending[h].Unlocking?
    ensures var t, n := m.pending[h], Next(p, m, UnlockResumes(h));
            if Opens(p, t.passphrase, t.wrapped) && t.epoch == m.epoch
            then n == m.(pending := m.pending - {h}, key := m.original, locked := false, unlockFired := m.unlockFired + 1)
                 && m.original.Some?
            else n == m.(pending := m.pending - {h})
  {
    var t := m.pending[h];
    assert PendingOk(p, m, t);
    var q, salt, nonce :| |salt| == ARGON2_SALT_BYTES && |nonce| == Codec.GCM_NONCE_BYTES
                          && t.wrapped == Wrapped(p, q, salt, nonce, m.original.value);
    UnwrapsWrapped(p, q, salt, nonce, m.original.value, t.passphrase);
  }

  // ----- Runs -----

  /** Once there is a key it stays the first one. */
  lemma {:induction false} OriginalStays(p: Primitives, m: Manager, es: seq<Event>)
    requires Sound(p) && Inv(p, m) && Trace(p, m, es) && m.original.Some?
    ensures After(p, m, es).original == m.original && Inv(p, After(p, m, es))
    decreases |es|
  {
    if es != [] {
      NextKeeps(p, m, es[0]);
      OriginalStays(p, Next(p, m, es[0]), es[1..]);
    }
  }

  /** The epoch counts the locks. */
  lemma {:induction false} EpochMoves(p: Primitives, m: Manager, es: seq<Event>)
    requires Trace(p, m, es)
    ensures After(p, m, es).epoch >= m.epoch
    ensures After(p, m, es).epoch == m.epoch <==> Locks !in es
    decreases |es|
  {
    if es != [] {
      assert es == [es[0]] + es[1..];
      EpochMoves(p, Next(p, m, es[0]), es[1..]);
    }
  }

  /** The right passphrase unlocks. Where storage seals the key under `q`, an unlock with `q`, whatever happens
      before it resumes, opens the manager with the first key in memory and fires the unlock listeners once,
      if and only if no lock came in between. */
  lemma RightPassphraseUnlocks(p: Primitives, es: seq<Event>, q: string, salt: Bytes, nonce: Bytes, h: nat, mid: seq<Event>)
    requires Sound(p) && Trace(p, NEW, es) && |salt| == ARGON2_SALT_BYTES && |nonce| == Codec.GCM_NONCE_BYTES
    requires var m := After(p, NEW, es);
             m.original.Some? && m.storage == Some(WrappedKey(Wrapped(p, q, salt, nonce, m.original.value))) && h !in m.pending
             && Trace(p, Next(p, m, Unlocks(h, q)), mid)
    requires forall i :: 0 <= i < |mid| ==> Owner(mid[i]) != Some(h)
    ensures var m := After(p, NEW, es);
            var before := After(p, Next(p, m, Unlocks(h, q)), mid);
            Enabled(before, UnlockResumes(h))
            && var after := Next(p, before, UnlockResumes(h));
               if Locks in mid then after.locked == before.locked && after.key == before.key && after.unlockFired == before.unlockFired
               else !after.locked && after.key == m.original && after.unlockFired == before.unlockFired + 1
  {
    var m := After(p, NEW, es);
    RunKeeps(p, NEW, es);
    NextKeeps(p, m, Unlocks(h, q));
    var began := Next(p, m, Unlocks(h, q));
    StillPending(p, began, mid, h);
    OriginalStays(p, began, mid);
    EpochMoves(p, began, mid);
    ResumeExactly(p, After(p, began, mid), h);
    OpensWrapped(p, q, salt, nonce, m.original.value);
  }

  lemma OpensWrapped(p: Primitives, q: string, salt: Bytes, nonce: Bytes, key: Bytes)
    requires Sound(p) && |salt| == ARGON2_SALT_BYTES && |nonce| == Codec.GCM_NONCE_BYTES && |key| == AES_KEY_BYTES
    ensures Opens(p, q, Wrapped(p, q, salt, nonce, key))
  {
    var w := Wrapped(p, q, salt, nonce, key);
    assert w[..16] == salt && w[16..28] == nonce && w[28..] == p.seal(p.kdf(q, salt), nonce, key);
  }

  /** A passphrase is set: whatever happens before its wrap comes back, storage then seals the first key under
      it; and the manager is open, unless a lock came in between, which is then left as it is. */
  lemma PassphraseSeals(p: Primitives, es: seq<Event>, q: string, h: nat, mid: seq<Event>, salt: Bytes, nonce: Bytes)
    requires Sound(p) && Trace(p, NEW, es) && |salt| == ARGON2_SALT_BYTES && |nonce| == Codec.GCM_NONCE_BYTES
    requires var m := After(p, NEW, es); m.key.Some? && h !in m.pending && Trace(p, Next(p, m, SetsPassphrase(h, q)), mid)
    requires forall i :: 0 <= i < |mid| ==> Owner(mid[i]) != Some(h)
    ensures var m := After(p, NEW, es);
            var before := After(p, Next(p, m, SetsPassphrase(h, q)), mid);
            m.original.Some? && Enabled(before, WrapResumes(h, salt, nonce))
            && var after := Next(p, before, WrapResumes(h, salt, nonce));
               after.storage == Some(WrappedKey(Wrapped(p, q, salt, nonce, m.original.value)))
               && after.locked == (before.locked && Locks in mid) && after.key == before.key && after.original == m.original
  {
    var m := After(p, NEW, es);
    RunKeeps(p, NEW, es);
    NextKeeps(p, m, SetsPassphrase(h, q));
    var began := Next(p, m, SetsPassphrase(h, q));
    StillPending(p, began, mid, h);
    OriginalStays(p, began, mid);
    EpochMoves(p, began, mid);
  }
}
