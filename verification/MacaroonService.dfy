/** The macaroon service across restarts: the password of the root key store and the macaroon file. */
module MacaroonService {
  import opened Wrappers
  import opened Permissions
  import opened Words

  /** A key derived with lnd. It is never the empty password. */
  type SharedKey = k: Bytes | |k| == 32 witness seq(32, i => 0)

  // ---- the root key store, an external library ----

  datatype Encryption = Fresh | Under(password: Bytes)

  /** The root key is generated when it is first needed, so that a fresh store has none. */
  datatype Store = Store(encryption: Encryption, unlocked: bool, rootKey: Option<int>)

  /** A store that is locked opens with its password, and a fresh one with any. */
  predicate Opens(s: Store, password: Bytes, fails: bool) {
    !fails && !s.unlocked && (s.encryption.Fresh? || s.encryption == Under(password))
  }

  /** The password can be changed only once there is a root key. */
  predicate Changes(s: Store, from: Bytes, fails: bool) {
    !fails && s.unlocked && s.encryption == Under(from) && s.rootKey.Some?
  }

  function WithRootKey(s: Store, generated: Option<int>): Store {
    if s.rootKey.Some? then s else s.(rootKey := generated)
  }

  class RootKeyStore {
    var state: Store

    constructor (s: Store)
      ensures state == s
    {
      state := s;
    }

    method CreateUnlock(password: Bytes, fails: bool) returns (ok: bool)
      modifies this
      ensures ok == Opens(old(state), password, fails)
      ensures state == if ok then old(state).(encryption := Under(password), unlocked := true) else old(state)
    {
      ok := Opens(state, password, fails);
      if ok {
        state := state.(encryption := Under(password), unlocked := true);
      }
    }

    method ChangePassword(from: Bytes, to: Bytes, fails: bool) returns (ok: bool)
      modifies this
      ensures ok == Changes(old(state), from, fails)
      ensures state == if ok then old(state).(encryption := Under(to)) else old(state)
    {
      ok := Changes(state, from, fails);
      if ok {
        state := state.(encryption := Under(to));
      }
    }

    /** Minting asks for the root key, which is generated if need be. */
    method RootKey(generated: Option<int>) returns (key: Option<int>)
      modifies this
      ensures state == WithRootKey(old(state), generated) && key == state.rootKey
      ensures old(state).rootKey.Some? ==> key == old(state).rootKey
    {
      if state.rootKey.None? {
        state := state.(rootKey := generated);
      }
      key := state.rootKey;
    }
  }

  // ---- the macaroon file ----

  datatype Macaroon = Macaroon(rootKey: int, ops: set<Op>, nonce: int)

  datatype File = Absent | Undecodable | Decodable(mac: Macaroon)

  class Disk {
    var file: File

    constructor (f: File)
      ensures file == f
    {
      file := f;
    }
  }

  /** What a macaroon allows: nothing, when it was not minted with the store's root key. */
  function Granted(rootKey: Option<int>, m: Macaroon): set<Op> {
    if rootKey == Some(m.rootKey) then m.ops else {}
  }

  // ---- the service ----

  datatype Config = Config(extendedStore: bool, stateless: bool, dbPassword: Bytes, requiredPerms: map<string, seq<Op>>)

  /** What the outside does during one Start: which calls fail, the key that lnd derives, the root key
      that is generated if there is none, the nonce of a new macaroon (None if generating, minting or
      marshalling fails), and what a failed write leaves. */
  datatype Env = Env(newServiceFails: bool, sharedKey: Option<SharedKey>, unlockFails: bool, emptyFails: bool,
                     changeFails: bool, readFails: bool, allowFails: bool, allowedFails: bool,
                     newRootKey: Option<int>, minted: Option<int>, writeFails: Option<File>)

  datatype Err =
    | NewServiceFailed
    | DeriveFailed | UnlockFailed | ChangePasswordFailed
    | ReadFailed | DecodeFailed | CheckFailed
    | MintFailed | WriteFailed

  function Required(cfg: Config): set<Op> {
    set uri, op | uri in cfg.requiredPerms && op in cfg.requiredPerms[uri] :: op
  }

  /** Every required operation, once. */
  method ExtractPerms(requiredPerms: map<string, seq<Op>>) returns (perms: seq<Op>)
    ensures NoDuplicates(perms)
    ensures forall op :: op in perms <==> exists uri :: uri in requiredPerms && op in requiredPerms[uri]
  {
    var pairs: Pairs := map[];
    ghost var known: set<Op> := {};
    var uris := requiredPerms.Keys;
    while uris != {}
      invariant uris <= requiredPerms.Keys && Represents(pairs, known)
      invariant forall op :: op in known <==>
                  exists uri :: uri in requiredPerms && uri !in uris && op in requiredPerms[uri]
    {
      var uri :| uri in uris;
      uris := uris - {uri};
      pairs := AddAll(pairs, requiredPerms[uri], known);
      known := known + Elements(requiredPerms[uri]);
    }
    perms := Flatten(pairs, known);
    assert forall op :: op in perms <==> op in Elements(perms);
  }

  // ---- what a Start is to do ----

  datatype Unlocking = Unlocking(store: Store, err: Option<Err>)

  function Opened(s: Store, password: Bytes): Store {
    s.(encryption := Under(password), unlocked := true)
  }

  function UnlockPhase(cfg: Config, s: Store, e: Env): Unlocking {
    if !cfg.extendedStore then Unlocking(s, None)
    else if cfg.dbPassword != [] then
      if Opens(s, cfg.dbPassword, e.unlockFails) then Unlocking(Opened(s, cfg.dbPassword), None)
      else Unlocking(s, Some(UnlockFailed))
    else if e.sharedKey.None? then Unlocking(s, Some(DeriveFailed))
    else if Opens(s, e.sharedKey.value, e.unlockFails) then Unlocking(Opened(s, e.sharedKey.value), None)
    else if !Opens(s, [], e.emptyFails) then Unlocking(s, Some(UnlockFailed))
    else if !Changes(Opened(s, []), [], e.changeFails) then Unlocking(Opened(s, []), Some(ChangePasswordFailed))
    else Unlocking(Opened(s, e.sharedKey.value), None)
  }

  /** Whether the file holds a macaroon that grants exactly what is required. */
  function Compare(required: set<Op>, rootKey: Option<int>, f: File, e: Env): Result<bool, Err>
    requires !f.Absent?
  {
    if e.readFails then Failure(ReadFailed)
    else if f.Undecodable? then Failure(DecodeFailed)
    else if e.allowFails || !(required <= Granted(rootKey, f.mac)) then Success(false)
    else if e.allowedFails then Failure(CheckFailed)
    else Success(Granted(rootKey, f.mac) == required)
  }

  datatype World = World(store: Store, file: File)

  datatype Outcome = Outcome(world: World, err: Option<Err>)

  function FilePhase(required: set<Op>, s: Store, f: File, e: Env): Outcome {
    var current := if f.Absent? then Success(false) else Compare(required, s.rootKey, f, e);
    if current.Failure? then Outcome(World(s, f), Some(current.error))
    else if current.value then Outcome(World(s, f), None)
    else Replaced(required, WithRootKey(s, e.newRootKey), f, e)
  }

  /** The file with a new macaroon in the place of what was there. */
  function Replaced(required: set<Op>, s: Store, f: File, e: Env): Outcome {
    if s.rootKey.None? || e.minted.None? then Outcome(World(s, f), Some(MintFailed))
    else if e.writeFails.Some? then Outcome(World(s, e.writeFails.value), Some(WriteFailed))
    else Outcome(World(s, Decodable(Macaroon(s.rootKey.value, required, e.minted.value))), None)
  }

  function Started(cfg: Config, w: World, e: Env): Outcome {
    if e.newServiceFails then Outcome(w, Some(NewServiceFailed))
    else
      var u := UnlockPhase(cfg, w.store, e);
      if u.err.Some? || cfg.stateless then Outcome(World(u.store, w.file), u.err)
      else FilePhase(Required(cfg), u.store, w.file, e)
  }

  class Service {
    const cfg: Config
    const rootKeys: RootKeyStore
    const disk: Disk

    constructor (c: Config, r: RootKeyStore, d: Disk)
      ensures cfg == c && rootKeys == r && disk == d
    {
      cfg, rootKeys, disk := c, r, d;
    }

    ghost function State(): World
      reads rootKeys, disk
    {
      World(rootKeys.state, disk.file)
    }

    /** macaroonMatchesPermissions. The bakery allows a list of operations when it allows each of
        them, and counts all those that the macaroon grants. */
    method MatchesPermissions(e: Env) returns (r: Result<bool, Err>)
      requires !disk.file.Absent?
      ensures r == Compare(Required(cfg), rootKeys.state.rootKey, disk.file, e)
    {
      if e.readFails {
        return Failure(ReadFailed);
      }
      if disk.file.Undecodable? {
        return Failure(DecodeFailed);
      }
      var allowed := Granted(rootKeys.state.rootKey, disk.file.mac);
      var required := ExtractPerms(cfg.requiredPerms);
      assert Elements(required) == Required(cfg);
      CountTestExact(required, allowed);
      if e.allowFails || exists op :: op in required && op !in allowed {
        return Success(false);
      }
      if e.allowedFails {
        return Failure(CheckFailed);
      }
      return Success(|allowed| == |required|);
    }

    method Start(e: Env) returns (err: Option<Err>)
      modifies rootKeys, disk
      ensures Outcome(State(), err) == Started(cfg, old(State()), e)
    {
      if e.newServiceFails {
        return Some(NewServiceFailed);
      }
      err := Unlock(e);
      if err.Some? || cfg.stateless {
        return err;
      }
      if !disk.file.Absent? {
        var matches := MatchesPermissions(e);
        if matches.Failure? {
          return Some(matches.error);
        }
        if matches.value {
          return None;
        }
      }
      var perms := ExtractPerms(cfg.requiredPerms);
      var key := rootKeys.RootKey(e.newRootKey);
      if key.None? || e.minted.None? {
        return Some(MintFailed);
      }
      if e.writeFails.Some? {
        disk.file := e.writeFails.value;
        return Some(WriteFailed);
      }
      assert Elements(perms) == Required(cfg);
      disk.file := Decodable(Macaroon(key.value, Elements(perms), e.minted.value));
      return None;
    }

    /** The switch of Start. */
    method Unlock(e: Env) returns (err: Option<Err>)
      modifies rootKeys
      ensures Unlocking(rootKeys.state, err) == UnlockPhase(cfg, old(rootKeys.state), e)
    {
      if !cfg.extendedStore {
        return None;
      }
      if cfg.dbPassword != [] {
        var unlocked := rootKeys.CreateUnlock(cfg.dbPassword, e.unlockFails);
        return if unlocked then None else Some(UnlockFailed);
      }
      if e.sharedKey.None? {
        return Some(DeriveFailed);
      }
      var ok := rootKeys.CreateUnlock(e.sharedKey.value, e.unlockFails);
      if ok {
        return None;
      }
      ok := rootKeys.CreateUnlock([], e.emptyFails);
      if !ok {
        return Some(UnlockFailed);
      }
      ok := rootKeys.ChangePassword([], e.sharedKey.value, e.changeFails);
      return if ok then None else Some(ChangePasswordFailed);
    }
  }
}
