/** What a world state means: the contents of the accounts trie and of every storage trie, cached or not. */
module Worlds {
  import opened Bytes
  import opened Overlays
  import opened Tries
  import opened AccountsTries
  import opened StorageTries

  /** The fields of a world state: the store it was opened on, the accounts trie and the cached storage tries. */
  datatype World = World(format: TrieFormat, version: Version, db: Contents, accounts: Trie, cache: map<Address, Trie>)

  function LoadedOr(f: TrieFormat, db: Contents, t: Trie): Contents {
    match ContentsOf(f, db, t) case None => map[] case Some(c) => c
  }

  function AccountsIn(w: World): Contents {
    LoadedOr(w.format, w.db, w.accounts)
  }

  /** The storage hash entered for an address. */
  function HashIn(w: World, a: Address): Option<Hash> {
    StorageHashAt(w.version, AccountsIn(w), a)
  }

  /** The storage trie that is read for an address: the cached one, or the one its storage hash names. */
  function TrieFor(w: World, a: Address): Option<Trie> {
    if a in w.cache then Some(w.cache[a])
    else match HashIn(w, a) case None => None case Some(h) => Some(OpenTrie(w.version, a, h))
  }

  /** The storage of an address; one that was never made is empty. */
  function StorageIn(w: World, a: Address): Contents {
    match TrieFor(w, a) case None => map[] case Some(t) => LoadedOr(w.format, w.db, t)
  }

  ghost predicate SoundStorage(f: TrieFormat, version: Version, db: Contents, a: Address, t: Trie) {
    Sound(f, db, t) && t.version == version && t.prefix == a && WellKeyed(version, ContentsOf(f, db, t).value)
  }

  ghost predicate SoundAccounts(w: World) {
    && Sound(w.format, w.db, w.accounts) && w.accounts.version == w.version && w.accounts.prefix == []
    && WellFormed(w.version, AccountsIn(w))
  }

  /** The accounts trie and every storage trie, cached or named by a storage hash, can be read. */
  ghost predicate Loadable(w: World) {
    && SoundAccounts(w)
    && (forall a: Address | TrieFor(w, a).Some? :: SoundStorage(w.format, w.version, w.db, a, TrieFor(w, a).value))
  }

  /** Every cached storage trie has a storage hash entry in the accounts trie. */
  ghost predicate Entered(w: World) {
    forall a | a in w.cache :: HashIn(w, a).Some?
  }

  /** Every overlay is tidy. In a state that was made or opened every cached trie is entered; in one that was upgraded
      every entered trie is cached. */
  ghost predicate InMode(mode: Mode, w: World) {
    && Tidy(mode, w.format, w.accounts, AccountsIn(w))
    && (forall a | a in w.cache :: Tidy(mode, w.format, w.cache[a], StorageIn(w, a)))
    && match mode
       case AsOpened => Entered(w)
       case AsUpgraded => w.version == V2 && forall a: Address | HashIn(w, a).Some? :: a in w.cache
  }

  /** What new and opened world states are. */
  ghost predicate Regular(w: World) {
    Loadable(w) && InMode(AsOpened, w)
  }

  /** What upgraded world states are, until they are closed. */
  ghost predicate Rebuilt(w: World) {
    Loadable(w) && InMode(AsUpgraded, w)
  }

  /** `w'` is a later state of `w` on the same store, readable and in every mode that `w` is in. */
  ghost predicate Keeps(w: World, w': World) {
    && w'.format == w.format && w'.version == w.version && w'.db == w.db && Loadable(w')
    && (forall mode :: InMode(mode, w) ==> InMode(mode, w')) && KeepsChanges(w, w')
  }

  /** No trie has taken a change back. */
  ghost predicate KeepsChanges(w: World, w': World) {
    && Touched(w.accounts.overlay) <= Touched(w'.accounts.overlay)
    && forall a | a in w.cache :: a in w'.cache && Touched(w.cache[a].overlay) <= Touched(w'.cache[a].overlay)
  }

  // ---------- making a state ----------

  function NewWorld(f: TrieFormat, version: Version, db: Contents): World {
    World(f, version, db, NewTrie(f, version, []), map[])
  }

  function OpenWorld(f: TrieFormat, version: Version, db: Contents, root: Hash): World {
    World(f, version, db, OpenTrie(version, [], root), map[])
  }

  lemma NewIsRegular(f: TrieFormat, version: Version, db: Contents)
    requires LawfulFormat(f)
    ensures var w := NewWorld(f, version, db);
            Regular(w) && AccountsIn(w) == map[] && forall a: Address :: StorageIn(w, a) == map[]
  {
    hide LawfulFormat, Sound, Holds, ContentsOf, NewTrie, Tidy;
    NewHolds(f, db, version, []);
    HoldsLoads(f, db, NewTrie(f, version, []), map[]);
    NewIsTidy(f, version, []);
  }

  /** A state that is opened on a store where its tries are readable starts out regular. */
  lemma OpenIsRegular(f: TrieFormat, version: Version, db: Contents, root: Hash)
    requires Loadable(OpenWorld(f, version, db, root))
    ensures Regular(OpenWorld(f, version, db, root))
  {
    hide Loadable, Tidy;
    OpenIsTidy(f, version, [], root, AccountsIn(OpenWorld(f, version, db, root)));
  }

  // ---------- changing fields of accounts ----------

  /** `c'` is `c` with one field of one account changed. */
  ghost predicate FieldSet(version: Version, c: Contents, c': Contents, a: Address, g: AccountField, o: Option<Bytes>) {
    forall b: Address, h :: FieldAt(version, c', b, h) == if b == a && h == g then o else FieldAt(version, c, b, h)
  }

  lemma SettingOneField(f: TrieFormat, version: Version, c: Contents, a: Address, g: AccountField, value: Bytes)
    requires WellFormed(version, c) && Typed(g, value)
    ensures var c' := WithData(f, c, map[AccountKey(version, a, g) := value]);
            WellFormed(version, c') && FieldSet(version, c, c', a, g, Written(f, value))
  {
    var key := AccountKey(version, a, g);
    var c' := WithData(f, c, map[key := value]);
    AccountKeyParts(version, a, g);
    forall b: Address, h
      ensures FieldAt(version, c', b, h) == if b == a && h == g then Written(f, value) else FieldAt(version, c, b, h)
    {
      WithDataAt(f, c, map[key := value], AccountKey(version, b, h));
      if AccountKey(version, b, h) == key { AccountKeyInjective(version, b, h, a, g); }
    }
    assert IsAccountKey(version, key);
  }

  /** The world with one account field set. */
  function WithAccountField(w: World, a: Address, g: AccountField, value: Bytes): Result<World> {
    match SetAll(w.format, w.db, w.accounts, map[AccountKey(w.version, a, g) := value])
    case Err(e) => Err(e)
    case Ok(t) => Ok(w.(accounts := t))
  }

  /** Setting a field fails exactly if the accounts trie does not load. */
  lemma SetFieldFails(w: World, a: Address, g: AccountField, value: Bytes)
    ensures ContentsOf(w.format, w.db, w.accounts) == None ==> WithAccountField(w, a, g, value) == Err(TrieError)
    ensures ContentsOf(w.format, w.db, w.accounts).Some? ==> WithAccountField(w, a, g, value).Ok?
  {
    hide ContentsOf, Commit, WithData;
  }

  lemma SetFieldLoads(w: World, a: Address, g: AccountField, value: Bytes)
    requires SoundAccounts(w) && Typed(g, value)
    ensures WithAccountField(w, a, g, value).Ok?
    ensures var w' := WithAccountField(w, a, g, value).value;
            && w' == w.(accounts := w'.accounts)
            && SoundAccounts(w') && FieldSet(w.version, AccountsIn(w), AccountsIn(w'), a, g, Written(w.format, value))
            && Follows(w.format, w.accounts, AccountsIn(w), w'.accounts, AccountsIn(w'))
  {
    var f, c, data := w.format, AccountsIn(w), map[AccountKey(w.version, a, g) := value];
    var c' := WithData(f, c, data);
    assert LawfulFormat(f) && Holds(f, w.db, w.accounts, c);
    SetAllHolds(f, w.db, w.accounts, c, data);
    SettingOneField(f, w.version, c, a, g, value);
    AccountsFit(w.version, c);
    AccountsFit(w.version, c');
    var t := SetAll(f, w.db, w.accounts, data).value;
    hide LawfulFormat, Holds, WellFormed, FieldSet, WithData, Fits, Follows, Commit, SetAll, Sound, ContentsOf, Typed;
    HoldsLoads(f, w.db, t, c');
    CommitFollows(f, w.accounts, c, c');
    FollowsKeepsTrie(f, w.accounts, c, t, c');
  }

  lemma FollowsKeepsTrie(f: TrieFormat, t: Trie, c: Contents, t': Trie, c': Contents)
    requires Follows(f, t, c, t', c')
    ensures t'.version == t.version && t'.prefix == t.prefix
  {
  }

  /** Setting a field other than the storage hash changes that field and no storage. */
  lemma SetFieldKeeps(w: World, a: Address, g: AccountField, value: Bytes)
    requires Loadable(w) && Typed(g, value) && g != StorageHash
    ensures WithAccountField(w, a, g, value).Ok?
    ensures var w' := WithAccountField(w, a, g, value).value;
            && Keeps(w, w')
            && FieldSet(w.version, AccountsIn(w), AccountsIn(w'), a, g, Written(w.format, value))
            && forall b: Address :: StorageIn(w', b) == StorageIn(w, b)
  {
    SetFieldLoads(w, a, g, value);
    hide *;
    var w' := WithAccountField(w, a, g, value).value;
    forall b: Address ensures HashIn(w', b) == HashIn(w, b) {
      HashUnchanged(w, w', a, g, Written(w.format, value), b);
    }
    SameTries(w, w');
    SameTriesKeeps(w, w');
  }

  lemma HashUnchanged(w: World, w': World, a: Address, g: AccountField, o: Option<Bytes>, b: Address)
    requires w'.version == w.version
    requires FieldSet(w.version, AccountsIn(w), AccountsIn(w'), a, g, o) && (g != StorageHash || b != a)
    ensures HashIn(w', b) == HashIn(w, b)
  {
    hide AccountsIn;
    assert FieldAt(w.version, AccountsIn(w'), b, StorageHash) == FieldAt(w.version, AccountsIn(w), b, StorageHash);
  }

  /** A state with readable accounts, the same cache and the same storage hashes means the same storage. */
  lemma SameTries(w: World, w': World)
    requires Loadable(w) && SoundAccounts(w') && w' == w.(accounts := w'.accounts)
    requires forall b: Address :: HashIn(w', b) == HashIn(w, b)
    ensures Loadable(w') && forall b: Address :: StorageIn(w', b) == StorageIn(w, b)
  {
    hide SoundAccounts, HashIn, LoadedOr, SoundStorage;
    forall b: Address
      ensures TrieFor(w', b) == TrieFor(w, b) && StorageIn(w', b) == StorageIn(w, b)
    {
    }
  }

  lemma SameTriesKeeps(w: World, w': World)
    requires Loadable(w') && w' == w.(accounts := w'.accounts)
    requires forall b: Address :: HashIn(w', b) == HashIn(w, b) && StorageIn(w', b) == StorageIn(w, b)
    requires Follows(w.format, w.accounts, AccountsIn(w), w'.accounts, AccountsIn(w'))
    ensures Keeps(w, w')
  {
    hide Loadable, HashIn, StorageIn, AccountsIn, Tidy;
    forall mode | InMode(mode, w) ensures InMode(mode, w') {
      assert Tidy(mode, w.format, w.accounts, AccountsIn(w));
    }
  }

  // ---------- visiting a storage trie ----------

  /** What `storage_trie_mut` does for an address: open its trie, or make a new one and enter its root. */
  function Visited(w: World, a: Address): Result<World> {
    if a in w.cache then Ok(w)
    else
      match Get(w.format, w.db, w.accounts, AccountKey(w.version, a, StorageHash))
      case Err(e) => Err(e)
      case Ok(Some(h)) => if |h| == 32 then Ok(Cached(w, a, OpenTrie(w.version, a, h))) else Err(DecodeError)
      case Ok(None) =>
        var t := NewTrie(w.format, w.version, a);
        match WithAccountField(w, a, StorageHash, t.root)
        case Err(e) => Err(e)
        case Ok(w1) => Ok(Cached(w1, a, t))
  }

  /** What a visit does, case by case: a cached trie stays as it is, a storage hash is opened with no changes, and
      without one a new trie is made and its root entered. */
  lemma VisitCases(w: World, a: Address)
    ensures a in w.cache ==> Visited(w, a) == Ok(w)
    ensures a !in w.cache && ContentsOf(w.format, w.db, w.accounts) == None ==> Visited(w, a) == Err(TrieError)
    ensures forall c, h: Hash | a !in w.cache && ContentsOf(w.format, w.db, w.accounts) == Some(c)
                                && FieldAt(w.version, c, a, StorageHash) == Some(h) ::
              Visited(w, a) == Ok(w.(cache := w.cache[a := Trie(w.version, a, NO_CHANGES, h)]))
    ensures forall c | a !in w.cache && ContentsOf(w.format, w.db, w.accounts) == Some(c)
                       && FieldAt(w.version, c, a, StorageHash) == None ::
              var t := NewTrie(w.format, w.version, a);
              var entered := SetAll(w.format, w.db, w.accounts, map[AccountKey(w.version, a, StorageHash) := t.root]);
              entered.Ok? && Visited(w, a) == Ok(w.(accounts := entered.value, cache := w.cache[a := t]))
  {
    hide ContentsOf, Commit, WithData, AccountKey, NewTrie;
  }

  function Cached(w: World, a: Address, t: Trie): World {
    w.(cache := w.cache[a := t])
  }

  /** What an operation does to a storage trie. */
  datatype Change = Setting(keyed: Contents) | Removing(key: Bytes) | Emptying

  function ChangedTrie(w: World, t: Trie, change: Change): Result<Trie> {
    match change
    case Setting(keyed) => SetAll(w.format, w.db, t, keyed)
    case Removing(key) => Remove(w.format, w.db, t, StorageKey(w.version, key))
    case Emptying =>
      match ContentsOf(w.format, w.db, t)
      case None => Err(TrieError)
      case Some(c) => Ok(RemoveAll(w.format, w.db, t, c.Keys))
  }

  /** The answer and the state once the storage trie of an address is visited and changed: if it cannot be had, as it
      was; if it cannot be changed, as the visit leaves it. */
  ghost predicate Gives(w: World, a: Address, change: Change, r: Result<()>, w': World) {
    match Visited(w, a)
    case Err(e) => r == Err(e) && w' == w
    case Ok(w1) =>
      && a in w1.cache
      && match ChangedTrie(w1, w1.cache[a], change)
         case Err(e) => r == Err(e) && w' == w1
         case Ok(t) => r == Ok(()) && w' == Cached(w1, a, t)
  }

  /** A trie that does not load is not changed, and one that cannot be had fails the same way. */
  lemma ChangeFails(w: World, a: Address, change: Change, t: Trie)
    ensures a !in w.cache && ContentsOf(w.format, w.db, w.accounts) == None ==> Visited(w, a) == Err(TrieError)
    ensures ContentsOf(w.format, w.db, t) == None ==> ChangedTrie(w, t, change) == Err(TrieError)
  {
    hide ContentsOf, Commit, WithData;
  }

  /** `c'` has the same account fields as `c`, storage hashes aside. */
  ghost predicate SameButHashes(version: Version, c: Contents, c': Contents) {
    forall b: Address, h | h != StorageHash :: FieldAt(version, c', b, h) == FieldAt(version, c, b, h)
  }

  /** Caching a readable trie for an address changes the storage of that address only. */
  lemma CachingLoads(w: World, a: Address, t: Trie)
    requires Loadable(w) && SoundStorage(w.format, w.version, w.db, a, t)
    ensures Loadable(Cached(w, a, t)) && AccountsIn(Cached(w, a, t)) == AccountsIn(w)
    ensures forall b: Address ::
            StorageIn(Cached(w, a, t), b) == if b == a then LoadedOr(w.format, w.db, t) else StorageIn(w, b)
  {
    var w' := Cached(w, a, t);
    hide SoundStorage, LoadedOr, Sound, WellFormed;
    forall b: Address
      ensures TrieFor(w', b) == if b == a then Some(t) else TrieFor(w, b)
      ensures StorageIn(w', b) == if b == a then LoadedOr(w.format, w.db, t) else StorageIn(w, b)
    {
    }
  }

  lemma CachingInMode(mode: Mode, w: World, a: Address, t: Trie)
    requires Loadable(w) && InMode(mode, w) && SoundStorage(w.format, w.version, w.db, a, t)
    requires Tidy(mode, w.format, t, LoadedOr(w.format, w.db, t))
    requires mode == AsOpened ==> HashIn(w, a).Some?
    ensures InMode(mode, Cached(w, a, t))
  {
    hide Loadable, SoundStorage, Tidy, AccountsIn, StorageIn, TrieFor, LoadedOr;
    CachingLoads(w, a, t);
    CachingKeepsHashes(w, a, t);
    hide HashIn;
  }

  lemma CachingKeepsHashes(w: World, a: Address, t: Trie)
    ensures forall b: Address :: HashIn(Cached(w, a, t), b) == HashIn(w, b)
  {
  }

  /** Visiting changes no meaning; it caches the trie and, if there was none, enters an empty one. */
  lemma VisitKeeps(w: World, a: Address)
    requires Loadable(w)
    ensures Visited(w, a).Ok?
    ensures var w' := Visited(w, a).value;
            && Keeps(w, w') && w'.cache.Keys == w.cache.Keys + {a}
            && SameButHashes(w.version, AccountsIn(w), AccountsIn(w'))
            && forall b: Address :: StorageIn(w', b) == StorageIn(w, b)
  {
    if a !in w.cache {
      StoredHashIsTyped(w, a);
      hide Loadable, AccountsIn, StorageIn, Visited, InMode, FieldAt;
      if HashIn(w, a).Some? {
        VisitOpens(w, a);
      } else {
        VisitMakesNew(w, a);
      }
    }
  }

  lemma StoredHashIsTyped(w: World, a: Address)
    requires Loadable(w)
    ensures HashIn(w, a) == None <==> FieldAt(w.version, AccountsIn(w), a, StorageHash) == None
    ensures HashIn(w, a).Some? ==> FieldAt(w.version, AccountsIn(w), a, StorageHash) == HashIn(w, a)
    ensures ContentsOf(w.format, w.db, w.accounts) == Some(AccountsIn(w))
    ensures SoundAccounts(w)
  {
    FieldIsTyped(w.version, AccountsIn(w), a, StorageHash);
  }

  lemma VisitOpens(w: World, a: Address)
    requires Loadable(w) && a !in w.cache && HashIn(w, a).Some?
    ensures Visited(w, a) == Ok(Cached(w, a, OpenTrie(w.version, a, HashIn(w, a).value)))
    ensures var w' := Visited(w, a).value;
            && Keeps(w, w') && AccountsIn(w') == AccountsIn(w)
            && forall b: Address :: StorageIn(w', b) == StorageIn(w, b)
  {
    var t := OpenTrie(w.version, a, HashIn(w, a).value);
    hide *;
    VisitedIs(w, a, t);
    OpenedStorage(w, a, t);
    CachingLoads(w, a, t);
    OpeningKeeps(w, a, t);
  }

  lemma VisitedIs(w: World, a: Address, t: Trie)
    requires Loadable(w) && a !in w.cache && HashIn(w, a).Some? && t == OpenTrie(w.version, a, HashIn(w, a).value)
    ensures Visited(w, a) == Ok(Cached(w, a, t))
  {
    StoredHashIsTyped(w, a);
    hide Loadable, SoundAccounts, AccountsIn, ContentsOf;
  }

  lemma OpenedStorage(w: World, a: Address, t: Trie)
    requires Loadable(w) && a !in w.cache && HashIn(w, a).Some? && t == OpenTrie(w.version, a, HashIn(w, a).value)
    ensures SoundStorage(w.format, w.version, w.db, a, t) && StorageIn(w, a) == LoadedOr(w.format, w.db, t)
  {
    hide SoundStorage, SoundAccounts, LoadedOr, HashIn;
    assert TrieFor(w, a) == Some(t);
  }

  lemma OpeningKeeps(w: World, a: Address, t: Trie)
    requires Loadable(w) && a !in w.cache && HashIn(w, a).Some? && t == OpenTrie(w.version, a, HashIn(w, a).value)
    requires SoundStorage(w.format, w.version, w.db, a, t) && Loadable(Cached(w, a, t))
    ensures Keeps(w, Cached(w, a, t))
  {
    hide Loadable, SoundStorage, Tidy, LoadedOr, HashIn, StorageIn, AccountsIn, OpenTrie, Entered;
    forall mode | InMode(mode, w) ensures InMode(mode, Cached(w, a, t)) {
      if mode == AsOpened {
        OpenIsTidy(w.format, w.version, a, HashIn(w, a).value, LoadedOr(w.format, w.db, t));
        CachingInMode(mode, w, a, t);
      }
    }
  }

  lemma VisitMakesNew(w: World, a: Address)
    requires Loadable(w) && a !in w.cache && FieldAt(w.version, AccountsIn(w), a, StorageHash) == None
    ensures Visited(w, a).Ok?
    ensures var w' := Visited(w, a).value;
            && Keeps(w, w') && w'.cache.Keys == w.cache.Keys + {a}
            && SameButHashes(w.version, AccountsIn(w), AccountsIn(w'))
            && forall b: Address :: StorageIn(w', b) == StorageIn(w, b)
  {
    var t := NewTrie(w.format, w.version, a);
    StoredHashIsTyped(w, a);
    SetFieldLoads(w, a, StorageHash, t.root);
    var w1 := WithAccountField(w, a, StorageHash, t.root).value;
    assert Visited(w, a) == Ok(Cached(w1, a, t)) by {
      hide Loadable, SoundAccounts, WithAccountField, NewTrie, FieldSet, Follows;
    }
    assert Written(w.format, t.root) == Some(t.root);
    NewStorage(w, a);
    hide *;
    EnterNew(w, w1, a, t);
    CachedKeys(w, w1, a, t);
  }

  lemma CachedKeys(w: World, w1: World, a: Address, t: Trie)
    requires w1 == w.(accounts := w1.accounts)
    ensures Cached(w1, a, t).cache.Keys == w.cache.Keys + {a}
  {
  }

  lemma NewStorage(w: World, a: Address)
    requires Loadable(w)
    ensures var t := NewTrie(w.format, w.version, a);
            && SoundStorage(w.format, w.version, w.db, a, t) && LoadedOr(w.format, w.db, t) == map[]
            && Tidy(AsOpened, w.format, t, map[]) && (w.version == V2 ==> Tidy(AsUpgraded, w.format, t, map[]))
  {
    assert LawfulFormat(w.format);
    hide LawfulFormat, Sound, Holds, ContentsOf, NewTrie, Tidy, Loadable;
    NewHolds(w.format, w.db, w.version, a);
    HoldsLoads(w.format, w.db, NewTrie(w.format, w.version, a), map[]);
    NewIsTidy(w.format, w.version, a);
  }

  /** The state between entering the root of a new trie and caching it is not readable: it names a trie that is not
      in the store yet. Once the trie is cached it is. */
  lemma EnterNew(w: World, w1: World, a: Address, t: Trie)
    requires Loadable(w) && a !in w.cache && HashIn(w, a) == None && w1 == w.(accounts := w1.accounts)
    requires SoundAccounts(w1)
    requires FieldSet(w.version, AccountsIn(w), AccountsIn(w1), a, StorageHash, Some(t.root))
    requires Follows(w.format, w.accounts, AccountsIn(w), w1.accounts, AccountsIn(w1))
    requires SoundStorage(w.format, w.version, w.db, a, t) && LoadedOr(w.format, w.db, t) == map[]
    requires Tidy(AsOpened, w.format, t, map[]) && (w.version == V2 ==> Tidy(AsUpgraded, w.format, t, map[]))
    ensures var w' := Cached(w1, a, t);
            && Keeps(w, w') && SameButHashes(w.version, AccountsIn(w), AccountsIn(w'))
            && forall b: Address :: StorageIn(w', b) == StorageIn(w, b)
  {
    var w' := Cached(w1, a, t);
    assert w' == w.(accounts := w1.accounts, cache := w.cache[a := t]) && StorageIn(w, a) == map[];
    CachingKeepsAccounts(w1, a, t);
    SetHashKeepsFields(w.version, AccountsIn(w), AccountsIn(w1), a, t.root);
    hide *;
    forall b: Address ensures HashIn(w', b) == if b == a then Some(t.root) else HashIn(w, b) {
      if b != a {
        HashUnchanged(w, w', a, StorageHash, Some(t.root), b);
      } else {
        HashEntered(w, w', a, t.root);
      }
    }
    EnterNewTries(w, w', a, t);
    EnterNewKeeps(w, w', a, t);
  }

  lemma HashEntered(w: World, w': World, a: Address, h: Hash)
    requires w'.version == w.version && FieldSet(w.version, AccountsIn(w), AccountsIn(w'), a, StorageHash, Some(h))
    ensures HashIn(w', a) == Some(h)
  {
    hide AccountsIn;
    assert FieldAt(w.version, AccountsIn(w'), a, StorageHash) == Some(h);
  }

  lemma CachingKeepsAccounts(w: World, a: Address, t: Trie)
    requires SoundAccounts(w)
    ensures SoundAccounts(Cached(w, a, t)) && AccountsIn(Cached(w, a, t)) == AccountsIn(w)
  {
  }

  lemma SetHashKeepsFields(version: Version, c: Contents, c': Contents, a: Address, h: Hash)
    requires FieldSet(version, c, c', a, StorageHash, Some(h))
    ensures SameButHashes(version, c, c')
  {
  }

  lemma EnterNewTries(w: World, w': World, a: Address, t: Trie)
    requires Loadable(w) && a !in w.cache && HashIn(w, a) == None && SoundAccounts(w')
    requires w' == w.(accounts := w'.accounts, cache := w.cache[a := t])
    requires forall b: Address :: HashIn(w', b) == if b == a then Some(t.root) else HashIn(w, b)
    requires SoundStorage(w.format, w.version, w.db, a, t) && LoadedOr(w.format, w.db, t) == map[]
    ensures Loadable(w') && forall b: Address :: StorageIn(w', b) == StorageIn(w, b)
  {
    hide HashIn, SoundAccounts, SoundStorage, LoadedOr;
    forall b: Address
      ensures TrieFor(w', b) == if b == a then Some(t) else TrieFor(w, b)
      ensures StorageIn(w', b) == StorageIn(w, b)
    {
    }
  }

  lemma EnterNewKeeps(w: World, w': World, a: Address, t: Trie)
    requires Loadable(w') && w' == w.(accounts := w'.accounts, cache := w.cache[a := t])
    requires a !in w.cache && StorageIn(w, a) == map[]
    requires forall b: Address :: HashIn(w', b) == if b == a then Some(t.root) else HashIn(w, b)
    requires forall b: Address :: StorageIn(w', b) == StorageIn(w, b)
    requires Follows(w.format, w.accounts, AccountsIn(w), w'.accounts, AccountsIn(w'))
    requires Tidy(AsOpened, w.format, t, map[]) && (w.version == V2 ==> Tidy(AsUpgraded, w.format, t, map[]))
    ensures Keeps(w, w')
  {
    hide Loadable, HashIn, StorageIn, AccountsIn, Tidy;
    forall mode | InMode(mode, w) ensures InMode(mode, w') {
      assert Tidy(mode, w.format, w.accounts, AccountsIn(w));
      assert Tidy(mode, w.format, t, map[]) by { if mode == AsOpened {} }
    }
  }

  // ---------- changing storage ----------

  /** The state with the contents of a cached storage trie changed. */
  lemma StorageBecomes(w: World, a: Address, t: Trie, c: Contents)
    requires Loadable(w) && a in w.cache && LawfulFormat(w.format) && Holds(w.format, w.db, t, c)
    requires WellKeyed(w.version, c)
    requires Follows(w.format, w.cache[a], StorageIn(w, a), t, c)
    ensures var w' := Cached(w, a, t);
            && Keeps(w, w') && AccountsIn(w') == AccountsIn(w)
            && forall b: Address :: StorageIn(w', b) == if b == a then c else StorageIn(w, b)
  {
    CachedStorage(w, a);
    FollowsKeepsTrie(w.format, w.cache[a], StorageIn(w, a), t, c);
    hide *;
    SoundWith(w.format, w.version, w.db, a, t, c);
    CachingLoads(w, a, t);
    ChangingKeeps(w, a, t, c);
  }

  lemma SoundWith(f: TrieFormat, version: Version, db: Contents, a: Address, t: Trie, c: Contents)
    requires LawfulFormat(f) && Holds(f, db, t, c) && WellKeyed(version, c) && t.version == version && t.prefix == a
    ensures SoundStorage(f, version, db, a, t) && LoadedOr(f, db, t) == c
  {
    HoldsLoads(f, db, t, c);
    hide LawfulFormat, Holds, WellKeyed, Sound;
  }

  lemma ChangingKeeps(w: World, a: Address, t: Trie, c: Contents)
    requires Loadable(w) && a in w.cache && Loadable(Cached(w, a, t))
    requires SoundStorage(w.format, w.version, w.db, a, t) && LoadedOr(w.format, w.db, t) == c
    requires Follows(w.format, w.cache[a], StorageIn(w, a), t, c)
    ensures Keeps(w, Cached(w, a, t))
  {
    hide Loadable, SoundStorage, LoadedOr, StorageIn, AccountsIn, Tidy, HashIn;
    forall mode | InMode(mode, w) ensures InMode(mode, Cached(w, a, t)) {
      assert Tidy(mode, w.format, w.cache[a], StorageIn(w, a));
      CachingInMode(mode, w, a, t);
    }
  }

  lemma CachedStorage(w: World, a: Address)
    requires Loadable(w) && a in w.cache
    ensures SoundStorage(w.format, w.version, w.db, a, w.cache[a])
    ensures ContentsOf(w.format, w.db, w.cache[a]) == Some(StorageIn(w, a))
    ensures LawfulFormat(w.format) && Holds(w.format, w.db, w.cache[a], StorageIn(w, a))
            && WellKeyed(w.version, StorageIn(w, a))
    ensures w.cache[a].version == w.version && w.cache[a].prefix == a
  {
    assert TrieFor(w, a) == Some(w.cache[a]);
    hide LawfulFormat, WellKeyed, Holds;
  }

  /** `w'` has the keys of `data` set in the storage of one address, and is otherwise as `w`. */
  ghost predicate StorageSet(w: World, w': World, a: Address, data: Contents) {
    && SameButHashes(w.version, AccountsIn(w), AccountsIn(w'))
    && forall b: Address, k :: StorageAt(w.version, StorageIn(w', b), k)
         == if b == a && k in data then Written(w.format, data[k]) else StorageAt(w.version, StorageIn(w, b), k)
  }

  lemma StorageSetAt(w: World, w': World, a: Address, data: Contents, b: Address, k: Bytes)
    requires StorageSet(w, w', a, data)
    ensures StorageAt(w.version, StorageIn(w', b), k)
         == if b == a && k in data then Written(w.format, data[k]) else StorageAt(w.version, StorageIn(w, b), k)
  {
    hide SameButHashes, StorageIn, Written, StorageAt, AccountsIn;
  }

  lemma KeepsOn(w: World, w1: World, w2: World)
    requires Keeps(w, w1) && Keeps(w1, w2)
    ensures Keeps(w, w2)
  {
    hide Loadable, InMode;
  }

  /** First visiting, then setting. */
  lemma VisitedSet(w: World, w1: World, w2: World, a: Address, data: Contents)
    requires w1.version == w.version && w1.format == w.format && w2.version == w.version
    requires SameButHashes(w.version, AccountsIn(w), AccountsIn(w1))
    requires forall b: Address :: StorageIn(w1, b) == StorageIn(w, b)
    requires StorageSet(w1, w2, a, data)
    ensures StorageSet(w, w2, a, data)
  {
    hide AccountsIn, StorageIn, StorageAt, Written;
  }

  /** Setting keys of a cached storage trie sets them for that address and changes nothing else. `keyed` is the data
      under storage keys. */
  lemma SetStorageKeeps(w: World, a: Address, data: Contents, keyed: Contents)
    requires Loadable(w) && a in w.cache && Keyed(w.version, data, keyed)
    ensures var r := SetAll(w.format, w.db, w.cache[a], keyed);
            && r.Ok?
            && var w' := Cached(w, a, r.value);
               Keeps(w, w') && StorageSet(w, w', a, data)
  {
    CachedStorage(w, a);
    var c := StorageIn(w, a);
    var c' := WithData(w.format, c, keyed);
    hide Loadable, StorageIn, AccountsIn, SoundStorage, LawfulFormat, Holds;
    hide WellKeyed, SetAll, WithData, Keyed, StorageAt, Keeps;
    SetAllHolds(w.format, w.db, w.cache[a], c, keyed);
    SetReads(w.format, w.version, c, data, keyed);
    StorageFits(w.version, a, c);
    StorageFits(w.version, a, c');
    CommitFollows(w.format, w.cache[a], c, c');
    StorageBecomes(w, a, SetAll(w.format, w.db, w.cache[a], keyed).value, c');
  }

  /** Removing a key of a cached storage trie removes it for that address and changes nothing else. */
  lemma RemoveStorageKeeps(w: World, a: Address, key: Bytes)
    requires Loadable(w) && a in w.cache
    ensures var r := Remove(w.format, w.db, w.cache[a], StorageKey(w.version, key));
            && r.Ok?
            && var w' := Cached(w, a, r.value);
               && Keeps(w, w') && AccountsIn(w') == AccountsIn(w)
               && forall b: Address, k :: StorageAt(w.version, StorageIn(w', b), k)
                    == if b == a && k == key then None else StorageAt(w.version, StorageIn(w, b), k)
  {
    CachedStorage(w, a);
    var c := StorageIn(w, a);
    hide Loadable, StorageIn, AccountsIn, SoundStorage, LawfulFormat, Holds;
    hide WellKeyed, Remove, StorageAt, StorageKey, Keeps;
    StorageFits(w.version, a, c);
    RemoveHolds(w.format, w.db, w.cache[a], c, StorageKey(w.version, key));
    RemoveOne(w.version, c, key);
    StorageBecomes(w, a, Remove(w.format, w.db, w.cache[a], StorageKey(w.version, key)).value,
        c - {StorageKey(w.version, key)});
  }

  /** Emptying a cached storage trie, `remove_trie`. */
  lemma EmptyStorageKeeps(w: World, a: Address)
    requires Loadable(w) && a in w.cache
    ensures ContentsOf(w.format, w.db, w.cache[a]).Some?
    ensures var w' := Cached(w, a, RemoveAll(w.format, w.db, w.cache[a], LoadedOr(w.format, w.db, w.cache[a]).Keys));
            && Keeps(w, w') && AccountsIn(w') == AccountsIn(w)
            && forall b: Address :: StorageIn(w', b) == if b == a then map[] else StorageIn(w, b)
  {
    CachedStorage(w, a);
    var c := StorageIn(w, a);
    assert c - c.Keys == map[] && LoadedOr(w.format, w.db, w.cache[a]) == c && WellKeyed(w.version, map[]);
    hide Loadable, StorageIn, AccountsIn, SoundStorage, LawfulFormat, Holds;
    hide WellKeyed, RemoveAll, Keeps, LoadedOr, ContentsOf;
    RemoveAllHolds(w.format, w.db, w.cache[a], c, c.Keys);
    StorageFits(w.version, a, c);
    StorageFits(w.version, a, map[]);
    CommitFollows(w.format, w.cache[a], c, map[]);
    StorageBecomes(w, a, RemoveAll(w.format, w.db, w.cache[a], c.Keys), map[]);
  }
}
