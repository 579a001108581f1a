/** What any sequence of restarts does to the root key store and to the macaroon file. */
module MacaroonRestarts {
  import opened Wrappers
  import opened Permissions
  import opened MacaroonService

  /** One start of the service, later stopped: stopping locks the store. */
  datatype Boot = Boot(cfg: Config, env: Env)

  function Once(b: Boot, w: World): Outcome {
    Started(b.cfg, w, b.env)
  }

  function Run(boots: seq<Boot>, w: World): World {
    if boots == [] then w
    else
      var after := Once(boots[|boots| - 1], Run(boots[..|boots| - 1], w)).world;
      after.(store := after.store.(unlocked := false))
  }

  // ---- the macaroon file ----

  /** The file holds a macaroon that grants these operations and no others. */
  predicate Grants(w: World, ops: set<Op>) {
    w.file.Decodable? && Granted(w.store.rootKey, w.file.mac) == ops
  }

  /** A successful start leaves a file that grants exactly what it required, and it has written the
      file exactly if there was none, or one that granted something else, or the check of the old
      one failed for some other reason. */
  lemma FileAfterStart(b: Boot, w: World)
    requires Once(b, w).err == None && !b.cfg.stateless
    requires w.file.Decodable? ==> b.env.minted != Some(w.file.mac.nonce)
    ensures Grants(Once(b, w).world, Required(b.cfg))
    ensures Once(b, w).world.file != w.file <==> !Grants(w, Required(b.cfg)) || b.env.allowFails
    ensures w.store.rootKey.Some? ==> Once(b, w).world.store.rootKey == w.store.rootKey
  {
  }

  /** The start gets past the unlocking of the store. */
  predicate Unlocks(b: Boot, w: World) {
    !b.env.newServiceFails && UnlockPhase(b.cfg, w.store, b.env).err == None
  }

  /** The start gets as far as replacing the file: it has unlocked the store, is to keep a file, and
      finds none or one that it takes for outdated. */
  predicate Replaces(b: Boot, w: World) {
    && Unlocks(b, w) && !b.cfg.stateless
    && (w.file.Absent? || Compare(Required(b.cfg), w.store.rootKey, w.file, b.env) == Success(false))
  }

  /** There is a new macaroon to write. */
  predicate Mints(b: Boot, w: World) {
    b.env.minted.Some? && (w.store.rootKey.Some? || b.env.newRootKey.Some?)
  }

  lemma UnlockKeepsRootKey(b: Boot, s: Store)
    ensures UnlockPhase(b.cfg, s, b.env).store.rootKey == s.rootKey
  {
  }

  /** A start that fails has changed the file exactly if it was to replace it, had a new macaroon to
      write, and failed in writing it in such a way that something else was left. */
  lemma FileAfterFailure(b: Boot, w: World)
    ensures Once(b, w).err.Some? && Once(b, w).world.file != w.file
      <==> Replaces(b, w) && Mints(b, w) && b.env.writeFails.Some? && b.env.writeFails.value != w.file
    ensures Once(b, w).err.Some? && Once(b, w).world.file != w.file ==>
              && Once(b, w).err == Some(WriteFailed) && Once(b, w).world.file == b.env.writeFails.value
              && (b.env.allowFails || !Grants(w, Required(b.cfg)))
  {
    UnlockKeepsRootKey(b, w.store);
  }

  /** A start that is to replace the file keeps the old one, whatever that grants, exactly if there is
      no new macaroon to write or a failed write has left the old one. */
  lemma OldFileKept(b: Boot, w: World)
    requires Replaces(b, w) && (w.file.Decodable? ==> b.env.minted != Some(w.file.mac.nonce))
    ensures Once(b, w).world.file == w.file <==> !Mints(b, w) || b.env.writeFails == Some(w.file)
    ensures Once(b, w).err == None <==> Mints(b, w) && b.env.writeFails.None?
  {
    UnlockKeepsRootKey(b, w.store);
  }

  /** A locked store that a start can unlock. */
  predicate Unlockable(cfg: Config, s: Store, key: SharedKey) {
    !cfg.extendedStore ||
    (!s.unlocked &&
       match s.encryption
       case Fresh => true
       case Under(p) =>
         if cfg.dbPassword != [] then p == cfg.dbPassword else p == key || (p == [] && s.rootKey.Some?))
  }

  /** A start that is to keep a file succeeds, for some behaviour of the outside, exactly if the file is
      absent or decodes, and the store can be unlocked. */
  lemma StartsExactly(cfg: Config, w: World, key: SharedKey)
    requires !cfg.stateless
    ensures (exists e: Env :: e.sharedKey == Some(key) && Started(cfg, w, e).err == None)
      <==> !w.file.Undecodable? && Unlockable(cfg, w.store, key)
  {
    var e := Env(false, Some(key), false, false, false, false, false, false, Some(0), Some(0), None);
    var b := Boot(cfg, e);
    UnlockKeepsRootKey(b, w.store);
    assert Unlockable(cfg, w.store, key) <==> UnlockPhase(cfg, w.store, e).err == None;
    forall f: Env | f.sharedKey == Some(key) && UnlockPhase(cfg, w.store, f).err == None
      ensures Unlockable(cfg, w.store, key)
    {
    }
    if !w.file.Undecodable? && Unlockable(cfg, w.store, key) {
      assert Started(cfg, w, e).err == None;
    }
  }

  /** With a configured password, a start unlocks a locked store that is fresh or under that password, and
      leaves any other alone. Without an extended store there is nothing to unlock. */
  lemma ConfiguredPassword(b: Boot, w: World)
    requires !b.env.newServiceFails && (!b.cfg.extendedStore || b.cfg.dbPassword != [])
    ensures var u := UnlockPhase(b.cfg, w.store, b.env);
            && (!b.cfg.extendedStore ==> u == Unlocking(w.store, None))
            && (b.cfg.extendedStore ==>
                  && (u.err == None <==>
                        && !b.env.unlockFails && !w.store.unlocked
                        && (w.store.encryption.Fresh? || w.store.encryption == Under(b.cfg.dbPassword)))
                  && (u.err == None ==> u.store.encryption == Under(b.cfg.dbPassword) && u.store.unlocked)
                  && (u.err != None ==> u == Unlocking(w.store, Some(UnlockFailed))))
  {
  }

  /** A stateless start leaves the file alone, and succeeds exactly if it gets past unlocking the store. */
  lemma StatelessStart(b: Boot, w: World)
    requires b.cfg.stateless
    ensures Once(b, w).world.file == w.file
    ensures Once(b, w).err == None <==> Unlocks(b, w)
  {
  }

  /** The errors of a start, in the order in which it runs into them. Up to the writing of a new file, each
      leaves the file as it was. */
  lemma StartErrors(b: Boot, w: World)
    ensures b.env.newServiceFails ==> Once(b, w) == Outcome(w, Some(NewServiceFailed))
    ensures !b.env.newServiceFails && b.cfg.extendedStore && b.cfg.dbPassword == [] && b.env.sharedKey.None? ==>
              Once(b, w) == Outcome(w, Some(DeriveFailed))
    ensures Unlocks(b, w) && !b.cfg.stateless && !w.file.Absent? && b.env.readFails ==>
              Once(b, w).err == Some(ReadFailed) && Once(b, w).world.file == w.file
    ensures Unlocks(b, w) && !b.cfg.stateless && w.file.Undecodable? && !b.env.readFails ==>
              Once(b, w).err == Some(DecodeFailed) && Once(b, w).world.file == w.file
    ensures Replaces(b, w) && !Mints(b, w) ==> Once(b, w).err == Some(MintFailed) && Once(b, w).world.file == w.file
    ensures Replaces(b, w) && Mints(b, w) && b.env.writeFails.Some? ==> Once(b, w).err == Some(WriteFailed)
  {
    UnlockKeepsRootKey(b, w.store);
  }

  /** What is required is the union of the permissions of all methods. */
  lemma RequiredIsUnion(cfg: Config, op: Op)
    ensures op in Required(cfg) <==> exists uri :: uri in cfg.requiredPerms && op in cfg.requiredPerms[uri]
  {
  }

  predicate Stateful(boots: seq<Boot>) {
    forall b | b in boots :: !b.cfg.stateless
  }

  lemma UndecodableOnce(b: Boot, w: World)
    requires !b.cfg.stateless && w.file.Undecodable?
    ensures Once(b, w).err.Some? && Once(b, w).world.file == w.file
  {
  }

  lemma {:induction false} UndecodableStays(boots: seq<Boot>, w: World)
    requires Stateful(boots) && w.file.Undecodable?
    ensures Run(boots, w).file == w.file
  {
    if boots != [] {
      var n := |boots| - 1;
      UndecodableStays(boots[..n], w);
      UndecodableOnce(boots[n], Run(boots[..n], w));
    }
  }

  /** A file that does not decode stays as it is through every run, and lets no start succeed. */
  lemma {:induction false} UndecodableFails(boots: seq<Boot>, w: World)
    requires Stateful(boots) && w.file.Undecodable?
    ensures Run(boots, w).file == w.file
    ensures forall k | 0 <= k < |boots| :: Once(boots[k], Run(boots[..k], w)).err.Some?
  {
    UndecodableStays(boots, w);
    forall k | 0 <= k < |boots|
      ensures Once(boots[k], Run(boots[..k], w)).err.Some?
    {
      UndecodableStays(boots[..k], w);
      UndecodableOnce(boots[k], Run(boots[..k], w));
    }
  }

  /** A start that fails in writing, and leaves a file that does not decode, is the last one to have a
      chance until somebody removes the file. */
  lemma FailedWriteLasts(b: Boot, later: seq<Boot>, w: World)
    requires Replaces(b, w) && Mints(b, w) && b.env.writeFails == Some(Undecodable) && Stateful(later)
    ensures var w' := Run([b], w);
            && w'.file.Undecodable? && Run(later, w').file == w'.file
            && forall k | 0 <= k < |later| :: Once(later[k], Run(later[..k], w')).err.Some?
  {
    UnlockKeepsRootKey(b, w.store);
    assert [b][..0] == [] && Run([b][..0], w) == w;
    assert Once(b, w).world.file.Undecodable?;
    UndecodableFails(later, Run([b], w));
  }

  /** Every start of the run succeeds, with nothing but the permissions to make it replace the file,
      and with nonces that are new. */
  predicate Smooth(boots: seq<Boot>, w: World) {
    boots == [] ||
    var b, before := boots[|boots| - 1], Run(boots[..|boots| - 1], w);
    && Smooth(boots[..|boots| - 1], w)
    && Once(b, before).err == None && !b.cfg.stateless && !b.env.allowFails
    && (before.file.Decodable? ==> b.env.minted != Some(before.file.mac.nonce))
  }

  /** How often the file changed in the run. */
  function Rewrites(boots: seq<Boot>, w: World): nat {
    if boots == [] then 0
    else
      var rest := boots[..|boots| - 1];
      Rewrites(rest, w) + if Run(boots, w).file == Run(rest, w).file then 0 else 1
  }

  /** What the file grants after the run: what was required last. There may have been no file at first. */
  function LastRequired(boots: seq<Boot>, first: Option<set<Op>>): Option<set<Op>> {
    if boots == [] then first else Some(Required(boots[|boots| - 1].cfg))
  }

  /** How often the required operations changed from one start to the next. */
  function Upgrades(boots: seq<Boot>, first: Option<set<Op>>): nat {
    if boots == [] then 0
    else
      var rest := boots[..|boots| - 1];
      Upgrades(rest, first) + if LastRequired(boots, first) == LastRequired(rest, first) then 0 else 1
  }

  /** There is no file, or it grants these operations. */
  predicate Holds(w: World, held: Option<set<Op>>) {
    match held
    case None => w.file.Absent?
    case Some(ops) => Grants(w, ops)
  }

  /** Over every run of successful starts, with or without a file at first, the file grants what was
      required last, and it was written as often as the set of required operations changed. No other
      change of the permissions map has it rewritten, such as a further method that needs operations
      already required. */
  lemma {:induction false} RewritesAreUpgrades(boots: seq<Boot>, w: World, first: Option<set<Op>>)
    requires Smooth(boots, w) && Holds(w, first)
    ensures w.store.rootKey.Some? ==> Run(boots, w).store.rootKey == w.store.rootKey
    ensures Holds(Run(boots, w), LastRequired(boots, first))
    ensures Rewrites(boots, w) == Upgrades(boots, first)
  {
    if boots != [] {
      var b, rest := boots[|boots| - 1], boots[..|boots| - 1];
      RewritesAreUpgrades(rest, w, first);
      FileAfterStart(b, Run(rest, w));
    }
  }

  // ---- the password of the store ----

  /** Starts without a configured password, on an extended store, that derive one and the same key. */
  predicate Shares(b: Boot, key: SharedKey) {
    b.cfg.extendedStore && b.cfg.dbPassword == [] && (b.env.sharedKey.Some? ==> b.env.sharedKey.value == key)
  }

  /** The unlocking of a locked store, from each of its states. A fresh store can be left under the
      empty password: when the shared key fails to open it, the empty password opens it, and the
      password cannot be changed, if only because there is no root key yet. */
  lemma UnlockedUnder(b: Boot, s: Store, key: SharedKey)
    requires Shares(b, key) && !s.unlocked
    ensures var u := UnlockPhase(b.cfg, s, b.env);
            var changes := !b.env.emptyFails && !b.env.changeFails && s.rootKey.Some?;
            && (u.err == None ==> u.store == Opened(s, key))
            && (u.err == None <==>
                b.env.sharedKey.Some? &&
                  match s.encryption
                  case Fresh => !b.env.unlockFails || changes
                  case Under(p) => (p == key && !b.env.unlockFails) || (p == [] && changes))
            && (u.err.Some? && u.store.encryption != s.encryption <==>
                s.encryption.Fresh? && b.env.sharedKey.Some?
                  && b.env.unlockFails && !b.env.emptyFails && !changes)
            && (u.err.Some? && u.store.encryption != s.encryption ==> u.store.encryption == Under([]))
            && u.store.rootKey == s.rootKey
  {
  }

  predicate AllShare(boots: seq<Boot>, key: SharedKey) {
    forall b | b in boots :: Shares(b, key)
  }

  predicate Migratable(e: Encryption, key: SharedKey) {
    e.Fresh? || e.password in {[], key}
  }

  lemma MigrationStep(b: Boot, w: World, key: SharedKey)
    requires Shares(b, key) && !w.store.unlocked
    ensures var e := Once(b, w).world.store.encryption;
            && (Migratable(w.store.encryption, key) ==> Migratable(e, key))
            && (w.store.encryption == Under(key) || Unlocks(b, w) ==> e == Under(key))
  {
    UnlockedUnder(b, w.store, key);
  }

  /** In every run from a store that is fresh, under the empty password or under the shared key, the
      store is under the shared key once some start has unlocked it, and remains so whatever fails. */
  lemma {:induction false} MigratesOnce(boots: seq<Boot>, w: World, key: SharedKey)
    requires AllShare(boots, key) && !w.store.unlocked
    ensures !Run(boots, w).store.unlocked
    ensures Migratable(w.store.encryption, key) ==> Migratable(Run(boots, w).store.encryption, key)
    ensures w.store.encryption == Under(key) ==> Run(boots, w).store.encryption == Under(key)
    ensures forall k | 0 <= k < |boots| ::
              Unlocks(boots[k], Run(boots[..k], w)) ==> Run(boots, w).store.encryption == Under(key)
  {
    if boots != [] {
      var n := |boots| - 1;
      MigratesOnce(boots[..n], w, key);
      MigrationStep(boots[n], Run(boots[..n], w), key);
      forall k | 0 <= k < |boots| && Unlocks(boots[k], Run(boots[..k], w))
        ensures Run(boots, w).store.encryption == Under(key)
      {
        assert boots[..n][..k] == boots[..k];
        if k < n {
          assert boots[..n][k] == boots[k];
        }
      }
    }
  }

  lemma {:induction false} OtherPasswordStays(boots: seq<Boot>, w: World, key: SharedKey)
    requires AllShare(boots, key) && !w.store.unlocked
    requires w.store.encryption.Under? && w.store.encryption.password !in {[], key}
    ensures Run(boots, w).store == w.store
  {
    if boots != [] {
      var n := |boots| - 1;
      OtherPasswordStays(boots[..n], w, key);
      UnlockedUnder(boots[n], w.store, key);
    }
  }

  /** A store under any other password is never changed, and lets no start succeed. */
  lemma {:induction false} OtherPasswordFails(boots: seq<Boot>, w: World, key: SharedKey)
    requires AllShare(boots, key) && !w.store.unlocked
    requires w.store.encryption.Under? && w.store.encryption.password !in {[], key}
    ensures Run(boots, w).store == w.store
    ensures forall k | 0 <= k < |boots| :: Once(boots[k], Run(boots[..k], w)).err.Some?
  {
    OtherPasswordStays(boots, w, key);
    forall k | 0 <= k < |boots|
      ensures Once(boots[k], Run(boots[..k], w)).err.Some?
    {
      OtherPasswordStays(boots[..k], w, key);
      UnlockedUnder(boots[k], w.store, key);
    }
  }

  lemma {:induction false} NoRootKeyStays(boots: seq<Boot>, w: World, key: SharedKey)
    requires AllShare(boots, key) && !w.store.unlocked
    requires w.store.encryption == Under([]) && w.store.rootKey.None?
    ensures Run(boots, w).store == w.store
  {
    if boots != [] {
      var n := |boots| - 1;
      NoRootKeyStays(boots[..n], w, key);
      UnlockedUnder(boots[n], w.store, key);
    }
  }

  /** A store under the empty password that has no root key is never changed either, and lets no
      start succeed: the root key that would allow the change is generated only by minting, which
      comes after the change. */
  lemma {:induction false} NoRootKeyFails(boots: seq<Boot>, w: World, key: SharedKey)
    requires AllShare(boots, key) && !w.store.unlocked
    requires w.store.encryption == Under([]) && w.store.rootKey.None?
    ensures Run(boots, w).store == w.store
    ensures forall k | 0 <= k < |boots| :: Once(boots[k], Run(boots[..k], w)).err.Some?
  {
    NoRootKeyStays(boots, w, key);
    forall k | 0 <= k < |boots|
      ensures Once(boots[k], Run(boots[..k], w)).err.Some?
    {
      NoRootKeyStays(boots[..k], w, key);
      UnlockedUnder(boots[k], w.store, key);
    }
  }

  /** A start gets past unlocking a store under the empty password, for some behaviour of the outside,
      exactly if the store has a root key. */
  lemma RepairedExactly(cfg: Config, s: Store, key: SharedKey)
    requires cfg.extendedStore && cfg.dbPassword == [] && !s.unlocked && s.encryption == Under([])
    ensures (exists e: Env :: e.sharedKey == Some(key) && UnlockPhase(cfg, s, e).err == None) <==> s.rootKey.Some?
  {
    var e := Env(false, Some(key), false, false, false, false, false, false, None, None, None);
    assert UnlockPhase(cfg, s, e).err == None <==> s.rootKey.Some?;
  }

  /** So a first start in which opening a fresh store under the shared key fails, and opening it under
      the empty password does not, is the last one to have a chance: no later one succeeds. */
  lemma FreshStoreLost(b: Boot, later: seq<Boot>, w: World, key: SharedKey)
    requires Shares(b, key) && AllShare(later, key) && b.env.sharedKey.Some? && !b.env.newServiceFails
    requires w.store == Store(Fresh, false, None) && b.env.unlockFails && !b.env.emptyFails
    ensures var w' := Run([b], w);
            && w'.store == Store(Under([]), false, None)
            && Run(later, w').store == w'.store
            && forall k | 0 <= k < |later| :: Once(later[k], Run(later[..k], w')).err.Some?
  {
    assert [b][..0] == [] && Run([b][..0], w) == w;
    assert Once(b, w) == Outcome(World(Opened(w.store, []), w.file), Some(ChangePasswordFailed));
    NoRootKeyFails(later, Run([b], w), key);
  }

  /** A store that was not locked since it was opened cannot be unlocked again. */
  lemma NotUnlockedTwice(b: Boot, w: World)
    requires w.store.unlocked && b.cfg.extendedStore
    ensures Once(b, w).err.Some? && Once(b, w).world == w
  {
  }
}
