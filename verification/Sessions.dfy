/** Whole sessions on a world state: a run of updates, with closing and reopening in between, acts on a plain map. */
module Sessions {
  import opened Bytes
  import opened Overlays
  import opened Tries
  import opened AccountsTries
  import opened StorageTries
  import opened Worlds
  import opened WorldStates

  datatype Command =
    | SetField(address: Address, field: AccountField, value: Bytes)
    | Visit(address: Address)
    | SetStorage(address: Address, key: Bytes, value: Bytes)
    | SetBatch(address: Address, data: Contents)
    | RemoveStorage(address: Address, key: Bytes)
    | EmptyStorage(address: Address)
    | Reopen(insertsFirst: bool)

  /** What a world state stands for: fields of accounts and keys of their storages, nothing of tries or hashes. */
  datatype Ledger = Ledger(fields: map<(Address, AccountField), Bytes>, storage: map<(Address, Bytes), Bytes>)

  const NOTHING: Ledger := Ledger(map[], map[])

  /** A plain map with one key set to a value; the empty value is kept or removes the key, as the tries do. */
  function WithKey<K>(f: TrieFormat, m: map<K, Bytes>, key: K, value: Bytes): map<K, Bytes> {
    if Written(f, value).Some? then m[key := value] else m - {key}
  }

  function Step(f: TrieFormat, l: Ledger, command: Command): Ledger {
    match command
    case SetField(a, g, value) => l.(fields := WithKey(f, l.fields, (a, g), value))
    case SetStorage(a, key, value) => l.(storage := WithKey(f, l.storage, (a, key), value))
    case SetBatch(a, data) => l.(storage := WithBatch(f, l.storage, a, data))
    case RemoveStorage(a, key) => l.(storage := l.storage - {(a, key)})
    case EmptyStorage(a) => l.(storage := map at | at in l.storage && at.0 != a :: l.storage[at])
    case Visit(_) => l
    case Reopen(_) => l
  }

  function WithBatch(f: TrieFormat, m: map<(Address, Bytes), Bytes>, a: Address, data: Contents)
    : map<(Address, Bytes), Bytes>
  {
    (map at | at in m && !(at.0 == a && at.1 in data) :: m[at])
    + (map at | at in (set k | k in data :: (a, k)) && Written(f, data[at.1]).Some? :: data[at.1])
  }

  lemma BatchAt(f: TrieFormat, m: map<(Address, Bytes), Bytes>, a: Address, data: Contents, b: Address, k: Bytes)
    ensures Lookup(WithBatch(f, m, a, data), (b, k))
         == if b == a && k in data then Written(f, data[k]) else Lookup(m, (b, k))
  {
  }

  function Run(f: TrieFormat, l: Ledger, commands: seq<Command>): Ledger {
    if commands == [] then l else Step(f, Run(f, l, commands[..|commands| - 1]), commands[|commands| - 1])
  }

  lemma RunNone(f: TrieFormat, l: Ledger, commands: seq<Command>)
    ensures Run(f, l, commands[..0]) == l
  {
  }

  lemma RunOneMore(f: TrieFormat, l: Ledger, commands: seq<Command>, i: nat)
    requires i < |commands|
    ensures Run(f, l, commands[..i + 1]) == Step(f, Run(f, l, commands[..i]), commands[i])
  {
    assert commands[..i + 1][..i] == commands[..i];
    hide Step;
  }

  ghost predicate Means(w: World, l: Ledger) {
    && (forall a: Address, g | g != StorageHash :: FieldAt(w.version, AccountsIn(w), a, g) == Lookup(l.fields, (a, g)))
    && (forall a: Address, key :: StorageAt(w.version, StorageIn(w, a), key) == Lookup(l.storage, (a, key)))
  }

  /** The setters give values of the right length and leave the storage hash to the world state; what can be closed and
      reopened, `CanReopen` says. */
  ghost predicate Allowed(w: World, command: Command) {
    match command
    case SetField(_, g, value) => Typed(g, value) && g != StorageHash
    case Reopen(insertsFirst) => CanReopen(w, insertsFirst)
    case _ => true
  }

  predicate ReopenedBefore(commands: seq<Command>, n: nat)
    requires n <= |commands|
  {
    exists i: nat :: i < n && commands[i].Reopen?
  }

  /** A command of a run that starts in `w` is judged on the state that it meets: after a reopening that is one that was
      opened, which can be reopened in either order. */
  ghost predicate AllowedAt(w: World, commands: seq<Command>, i: nat)
    requires i < |commands|
  {
    Allowed(w, commands[i]) || (commands[i].Reopen? && ReopenedBefore(commands, i))
  }

  /** `w'` is readable, of the format and version of `w`, and what `w` allows it allows too. */
  ghost predicate Goes(w: World, w': World) {
    && w'.format == w.format && w'.version == w.version && Loadable(w')
    && (forall b :: CanReopen(w, b) ==> CanReopen(w', b)) && (Regular(w) ==> Regular(w'))
  }

  lemma GoesOn(w: World, w1: World, w2: World)
    requires Goes(w, w1) && Goes(w1, w2)
    ensures Goes(w, w2)
  {
    hide Loadable, Regular, CanReopen;
  }

  lemma KeepingGoes(w: World, w': World)
    requires Keeps(w, w') && Loadable(w)
    ensures Goes(w, w')
  {
    hide Loadable, InMode, Separate;
  }

  lemma ReopeningGoes(w: World, w': World)
    requires MeansSame(w, w') && w'.format == w.format && w'.version == w.version
    requires w.version == V1 ==> Separate(w.format)
    ensures Goes(w, w') && CanReopen(w', true)
  {
    hide Loadable, InMode, Separate, SameButHashes, StorageIn, AccountsIn;
  }

  /** Any run of commands on a state that can be read changes what is read exactly as the commands change the plain map,
      through any number of closings and reopenings. */
  method Execute(ws: WorldState, commands: seq<Command>, ghost l: Ledger) returns (r: WorldState)
    requires Loadable(ws.Snapshot()) && Means(ws.Snapshot(), l)
    requires forall i: nat | i < |commands| :: AllowedAt(ws.Snapshot(), commands, i)
    modifies ws
    ensures r == ws || fresh(r)
    ensures Goes(old(ws.Snapshot()), r.Snapshot())
    ensures ReopenedBefore(commands, |commands|) ==> CanReopen(r.Snapshot(), true)
    ensures Means(r.Snapshot(), Run(ws.format, l, commands))
  {
    hide *;
    ghost var w := ws.Snapshot();
    SnapshotIs(ws);
    GoesNowhere(w);
    NotReopened(commands);
    r := ws;
    var i := 0;
    RunNone(w.format, l, commands);
    while i < |commands|
      invariant i <= |commands| && (r == ws || fresh(r)) && Goes(w, r.Snapshot()) && r.format == w.format
      invariant ReopenedBefore(commands, i) ==> CanReopen(r.Snapshot(), true)
      invariant Means(r.Snapshot(), Run(w.format, l, commands[..i]))
    {
      ghost var w1 := r.Snapshot();
      StillAllowed(w, w1, commands, i);
      r := Apply(r, commands[i], Run(w.format, l, commands[..i]));
      StaysReopened(w1, r.Snapshot(), commands, i);
      GoesOn(w, w1, r.Snapshot());
      RunOneMore(w.format, l, commands, i);
      i := i + 1;
    }
    assert commands[..i] == commands;
  }

  lemma GoesNowhere(w: World)
    requires Loadable(w)
    ensures Goes(w, w)
  {
    hide Loadable, Regular, CanReopen;
  }

  lemma NotReopened(commands: seq<Command>)
    ensures !ReopenedBefore(commands, 0)
  {
  }

  lemma StillAllowed(w: World, w1: World, commands: seq<Command>, i: nat)
    requires i < |commands| && Goes(w, w1) && AllowedAt(w, commands, i)
    requires ReopenedBefore(commands, i) ==> CanReopen(w1, true)
    ensures Allowed(w1, commands[i]) && Loadable(w1)
  {
    hide Loadable, Regular, Rebuilt, Separate, ReopenedBefore;
  }

  lemma StaysReopened(w: World, w': World, commands: seq<Command>, i: nat)
    requires i < |commands| && Goes(w, w') && (ReopenedBefore(commands, i) ==> CanReopen(w, true))
    requires commands[i].Reopen? ==> CanReopen(w', true)
    ensures ReopenedBefore(commands, i + 1) ==> CanReopen(w', true)
  {
    hide Loadable, Regular, CanReopen;
  }

  method Apply(ws: WorldState, command: Command, ghost l: Ledger) returns (r: WorldState)
    requires Loadable(ws.Snapshot()) && Means(ws.Snapshot(), l) && Allowed(ws.Snapshot(), command)
    modifies ws
    ensures r == ws || fresh(r)
    ensures Goes(old(ws.Snapshot()), r.Snapshot()) && r.format == ws.format
    ensures command.Reopen? ==> CanReopen(r.Snapshot(), true)
    ensures Means(r.Snapshot(), Step(ws.format, l, command))
  {
    ghost var w := ws.Snapshot();
    LoadableIsReadable(ws);
    r := ws;
    if command.Reopen? {
      r := ReopenOne(ws, command.insertsFirst, l);
    } else if command.SetField? {
      SetOneField(ws, command.address, command.field, command.value, l);
    } else {
      ChangeStorage(ws, command, l);
    }
  }

  method ReopenOne(ws: WorldState, insertsFirst: bool, ghost l: Ledger) returns (r: WorldState)
    requires Means(ws.Snapshot(), l) && CanReopen(ws.Snapshot(), insertsFirst)
    modifies ws
    ensures fresh(r) && r.format == ws.format && Goes(old(ws.Snapshot()), r.Snapshot()) && Means(r.Snapshot(), l)
    ensures CanReopen(r.Snapshot(), true)
  {
    ghost var w := ws.Snapshot();
    assert Loadable(w) by { ReopenableIs(w, insertsFirst); }
    hide *;
    ReopenableIs(w, insertsFirst);
    var changes;
    ghost var closed;
    r, changes, closed := WorldStates.Reopen(ws, insertsFirst);
    SnapshotIs(r);
    SnapshotIs(ws);
    ReopeningGoes(w, r.Snapshot());
    SameMeaning(w, r.Snapshot(), l);
  }

  lemma SnapshotIs(ws: WorldState)
    ensures ws.Snapshot().format == ws.format && ws.Snapshot().version == ws.version
  {
  }

  lemma ReopenableIs(w: World, insertsFirst: bool)
    requires CanReopen(w, insertsFirst)
    ensures Loadable(w) && (w.version == V1 ==> Separate(w.format))
  {
    hide Loadable, Separate;
  }

  lemma SameMeaning(w: World, w': World, l: Ledger)
    requires w'.version == w.version && Means(w, l) && MeansSame(w, w')
    ensures Means(w', l)
  {
    hide Regular, AccountsIn, StorageIn;
  }

  method SetOneField(ws: WorldState, a: Address, g: AccountField, value: Bytes, ghost l: Ledger)
    requires Loadable(ws.Snapshot()) && Means(ws.Snapshot(), l) && Typed(g, value) && g != StorageHash
    modifies ws
    ensures Goes(old(ws.Snapshot()), ws.Snapshot())
    ensures Means(ws.Snapshot(), l.(fields := WithKey(ws.format, l.fields, (a, g), value)))
  {
    ghost var w := ws.Snapshot();
    SnapshotIs(ws);
    hide *;
    var done := ws.SetAccountField(a, g, value);
    SnapshotIs(ws);
    KeepingGoes(w, ws.Snapshot());
    FieldMeaning(w, ws.Snapshot(), a, g, value, l);
  }

  lemma FieldMeaning(w: World, w': World, a: Address, g: AccountField, value: Bytes, l: Ledger)
    requires w'.version == w.version && Means(w, l) && g != StorageHash
    requires FieldSet(w.version, AccountsIn(w), AccountsIn(w'), a, g, Written(w.format, value))
    requires forall b: Address :: StorageIn(w', b) == StorageIn(w, b)
    ensures Means(w', l.(fields := WithKey(w.format, l.fields, (a, g), value)))
  {
    hide AccountsIn, StorageIn;
  }

  method ChangeStorage(ws: WorldState, command: Command, ghost l: Ledger)
    requires Loadable(ws.Snapshot()) && Means(ws.Snapshot(), l) && !command.Reopen? && !command.SetField?
    requires forall a: Address :: ws.HashReadable(a)
    modifies ws
    ensures Goes(old(ws.Snapshot()), ws.Snapshot()) && Means(ws.Snapshot(), Step(ws.format, l, command))
  {
    ghost var w := ws.Snapshot();
    SnapshotIs(ws);
    hide *;
    match command {
      case Visit(a) =>
        var done := ws.StorageTrieMut(a);
        VisitMeaning(w, ws.Snapshot(), a, l);
      case SetStorage(a, key, value) =>
        var done := ws.SetStorage(a, key, value);
        SetMeaning(w, ws.Snapshot(), a, key, value, l);
      case SetBatch(a, data) =>
        var done := ws.SetStorageBatch(a, data);
        BatchMeaning(w, ws.Snapshot(), a, data, l);
      case RemoveStorage(a, key) =>
        var done := ws.RemoveStorage(a, key);
        RemoveMeaning(w, ws.Snapshot(), a, key, l);
      case EmptyStorage(a) =>
        var done := ws.RemoveTrie(a);
        EmptyMeaning(w, ws.Snapshot(), a, l);
    }
    SnapshotIs(ws);
    KeepingGoes(w, ws.Snapshot());
  }

  lemma VisitMeaning(w: World, w': World, a: Address, l: Ledger)
    requires Keeps(w, w') && Means(w, l) && SameButHashes(w.version, AccountsIn(w), AccountsIn(w'))
    requires forall b: Address :: StorageIn(w', b) == StorageIn(w, b)
    ensures Means(w', Step(w.format, l, Visit(a)))
  {
    hide AccountsIn, StorageIn, Loadable, InMode;
  }

  lemma SetMeaning(w: World, w': World, a: Address, key: Bytes, value: Bytes, l: Ledger)
    requires Keeps(w, w') && Means(w, l) && StorageSet(w, w', a, map[key := value])
    ensures Means(w', Step(w.format, l, SetStorage(a, key, value)))
  {
    hide *;
    BatchMeaning(w, w', a, map[key := value], l);
    OneIsBatch(w.format, l, a, key, value);
  }

  /** Setting one key is setting a batch of one. */
  lemma OneIsBatch(f: TrieFormat, l: Ledger, a: Address, key: Bytes, value: Bytes)
    ensures Step(f, l, SetStorage(a, key, value)) == Step(f, l, SetBatch(a, map[key := value]))
  {
    var m, m' := WithKey(f, l.storage, (a, key), value), WithBatch(f, l.storage, a, map[key := value]);
    forall at ensures Lookup(m, at) == Lookup(m', at) { BatchAt(f, l.storage, a, map[key := value], at.0, at.1); }
    hide WithKey, WithBatch;
    forall at ensures at in m <==> at in m' { assert Lookup(m, at) == Lookup(m', at); }
    forall at | at in m ensures m[at] == m'[at] { assert Lookup(m, at) == Lookup(m', at); }
  }

  lemma StepIs(f: TrieFormat, l: Ledger, command: Command, m: map<(Address, Bytes), Bytes>)
    requires command.SetBatch? && m == WithBatch(f, l.storage, command.address, command.data)
    ensures Step(f, l, command) == l.(storage := m)
  {
    hide WithBatch;
  }

  lemma SetIs(w: World, w': World, a: Address, data: Contents)
    requires Keeps(w, w') && StorageSet(w, w', a, data)
    ensures w'.version == w.version && SameButHashes(w.version, AccountsIn(w), AccountsIn(w'))
  {
    hide Loadable, InMode, StorageAt, SameButHashes, AccountsIn;
  }

  lemma StorageMeaning(w: World, w': World, l: Ledger, m: map<(Address, Bytes), Bytes>)
    requires w'.version == w.version && Means(w, l) && SameButHashes(w.version, AccountsIn(w), AccountsIn(w'))
    requires forall b: Address, k :: StorageAt(w.version, StorageIn(w', b), k) == Lookup(m, (b, k))
    ensures Means(w', l.(storage := m))
  {
    hide AccountsIn, StorageIn, StorageAt;
  }

  lemma MeansAt(w: World, l: Ledger, a: Address, key: Bytes)
    requires Means(w, l)
    ensures StorageAt(w.version, StorageIn(w, a), key) == Lookup(l.storage, (a, key))
  {
    hide AccountsIn, StorageIn, FieldAt, StorageAt;
  }

  lemma BatchMeaning(w: World, w': World, a: Address, data: Contents, l: Ledger)
    requires Keeps(w, w') && Means(w, l) && StorageSet(w, w', a, data)
    ensures Means(w', Step(w.format, l, SetBatch(a, data)))
  {
    var m := WithBatch(w.format, l.storage, a, data);
    StepIs(w.format, l, SetBatch(a, data), m);
    hide *;
    forall b: Address, k ensures StorageAt(w.version, StorageIn(w', b), k) == Lookup(m, (b, k)) {
      StorageSetAt(w, w', a, data, b, k);
      MeansAt(w, l, b, k);
      BatchAt(w.format, l.storage, a, data, b, k);
    }
    SetIs(w, w', a, data);
    StorageMeaning(w, w', l, m);
  }

  lemma RemoveMeaning(w: World, w': World, a: Address, key: Bytes, l: Ledger)
    requires Keeps(w, w') && Means(w, l) && SameButHashes(w.version, AccountsIn(w), AccountsIn(w'))
    requires forall b: Address, k :: StorageAt(w.version, StorageIn(w', b), k)
               == if b == a && k == key then None else StorageAt(w.version, StorageIn(w, b), k)
    ensures Means(w', Step(w.format, l, RemoveStorage(a, key)))
  {
    hide AccountsIn, StorageIn, Loadable, InMode, StorageAt;
  }

  lemma EmptyMeaning(w: World, w': World, a: Address, l: Ledger)
    requires Keeps(w, w') && Means(w, l) && SameButHashes(w.version, AccountsIn(w), AccountsIn(w'))
    requires forall b: Address :: StorageIn(w', b) == if b == a then map[] else StorageIn(w, b)
    ensures Means(w', Step(w.format, l, EmptyStorage(a)))
  {
    hide AccountsIn, StorageIn, Loadable, InMode;
  }

  lemma LoadableIsReadable(ws: WorldState)
    requires Loadable(ws.Snapshot())
    ensures forall a: Address :: ws.HashReadable(a)
  {
    forall a: Address ensures ws.HashReadable(a) { StoredHashIsTyped(ws.Snapshot(), a); }
  }

  // ---------- from the start ----------

  /** What a session may contain that starts on an empty state. */
  ghost predicate Sensible(f: TrieFormat, version: Version, command: Command) {
    match command
    case SetField(_, g, value) => Typed(g, value) && g != StorageHash
    case Reopen(_) => version == V1 ==> Separate(f)
    case _ => true
  }

  /** A session that starts on an empty state, of either version. */
  method Session(format: TrieFormat, version: Version, db: Contents, commands: seq<Command>) returns (r: WorldState)
    requires LawfulFormat(format) && forall c | c in commands :: Sensible(format, version, c)
    ensures fresh(r) && r.version == version && r.format == format
    ensures Regular(r.Snapshot()) && Means(r.Snapshot(), Run(format, NOTHING, commands))
  {
    var ws := new WorldState.New(format, version, db);
    ghost var w := ws.Snapshot();
    NewMeansNothing(format, version, db);
    forall i: nat | i < |commands| ensures AllowedAt(w, commands, i) { SensibleIsAllowed(w, commands[i]); }
    hide *;
    r := Execute(ws, commands, NOTHING);
    SnapshotIs(ws);
    SnapshotIs(r);
    GoesIs(w, r.Snapshot());
  }

  lemma GoesIs(w: World, w': World)
    requires Goes(w, w') && Regular(w)
    ensures w'.format == w.format && w'.version == w.version && Regular(w')
  {
    hide Loadable, Regular, CanReopen;
  }

  lemma SensibleIsAllowed(w: World, command: Command)
    requires Regular(w) && Sensible(w.format, w.version, command)
    ensures Allowed(w, command)
  {
    hide Regular, Rebuilt, Separate;
  }

  lemma NewMeansNothing(f: TrieFormat, version: Version, db: Contents)
    requires LawfulFormat(f)
    ensures var w := NewWorld(f, version, db);
            Loadable(w) && Regular(w) && Means(w, NOTHING) && w.format == f && w.version == version
  {
    NewIsRegular(f, version, db);
    hide AccountsIn, StorageIn, InMode, Loadable;
  }

  // ---------- through an upgrade ----------

  /** What is left of a plain map after an upgrade: explicit zeros and empty code are gone. */
  function UpgradedLedger(l: Ledger): Ledger {
    l.(fields := map at | at in l.fields && AfterUpgrade(at.1, Some(l.fields[at])).Some? :: l.fields[at])
  }

  lemma UpgradeMeans(w: World, w': World, l: Ledger)
    requires w.version == V1 && Means(w, l) && UpgradeMeansSame(w, w')
    requires WellFormed(V1, AccountsIn(w)) && WellFormed(V2, AccountsIn(w'))
    ensures Means(w', UpgradedLedger(l))
  {
    hide AccountsIn, StorageIn, Loadable, WellFormed, FieldAt, StorageAt, SameAccounts;
    forall a: Address, g | g != StorageHash
      ensures FieldAt(V2, AccountsIn(w'), a, g) == Lookup(UpgradedLedger(l).fields, (a, g))
    {
      FieldsUpgraded(AccountsIn(w), AccountsIn(w'), a, g);
      assert FieldAt(V1, AccountsIn(w), a, g) == Lookup(l.fields, (a, g));
    }
  }

  /** Every point read of a version 2 state answers what the plain map says, with 0 for an absent number; code that was
      set to nothing is absent. */
  ghost predicate ReadsAs(w: World, l: Ledger) {
    && (forall a: Address ::
          && NonceAt(V2, AccountsIn(w), a) == U64Or0(Lookup(l.fields, (a, Nonce)))
          && BalanceAt(V2, AccountsIn(w), a) == U64Or0(Lookup(l.fields, (a, Balance)))
          && CodeAt(V2, AccountsIn(w), a)
             == (if Lookup(l.fields, (a, ContractCode)) == Some([]) then None else Lookup(l.fields, (a, ContractCode)))
          && CbiVersionAt(V2, AccountsIn(w), a)
             == (var v := Lookup(l.fields, (a, CbiVersion));
                 if v.Some? && |v.value| == 4 then Some(FromLe32(v.value)) else None))
    && (forall a: Address, key :: StorageAt(V2, StorageIn(w, a), key) == Lookup(l.storage, (a, key)))
  }

  lemma UpgradeReads(w: World, w': World, l: Ledger)
    requires w.version == V1 && Means(w, l) && UpgradeMeansSame(w, w')
    ensures ReadsAs(w', l)
  {
    hide AccountsIn, StorageIn, Loadable;
  }

  /** A whole life: a version 1 session, closing and reopening as it likes, an upgrade, and a version 2 session that
      closes for the first time with deletes written first, and then as it likes. What is read at the end is what the
      commands make of a plain map, with explicit zeros and empty code dropped in between. */
  method Life(format: TrieFormat, db: Contents, before: seq<Command>, after: seq<Command>) returns (r: WorldState)
    requires LawfulFormat(format) && (forall c | c in before :: Sensible(format, V1, c))
    requires forall c | c in after :: Sensible(format, V2, c)
    requires forall i: nat | i < |after| && after[i] == Reopen(true) :: ReopenedBefore(after, i)
    ensures r.version == V2 && Loadable(r.Snapshot())
    ensures ReopenedBefore(after, |after|) ==> CanReopen(r.Snapshot(), true)
    ensures Means(r.Snapshot(), Run(format, UpgradedLedger(Run(format, NOTHING, before)), after))
  {
    var upgraded := SessionThenUpgrade(format, db, before);
    ghost var w := upgraded.Snapshot();
    forall i: nat | i < |after| ensures AllowedAt(w, after, i) { AllowedUpgraded(w, after, i); }
    RebuiltIsLoadable(w);
    hide *;
    r := Execute(upgraded, after, UpgradedLedger(Run(format, NOTHING, before)));
    SnapshotIs(upgraded);
    SnapshotIs(r);
    StillReadable(w, r.Snapshot());
  }

  lemma StillReadable(w: World, w': World)
    requires Goes(w, w')
    ensures Loadable(w') && w'.version == w.version
  {
    hide Loadable, Regular, CanReopen;
  }

  lemma RebuiltIsLoadable(w: World)
    requires Rebuilt(w)
    ensures Loadable(w)
  {
    hide Loadable;
  }

  lemma AllowedUpgraded(w: World, after: seq<Command>, i: nat)
    requires Rebuilt(w) && i < |after| && Sensible(w.format, V2, after[i])
    requires after[i] == Reopen(true) ==> ReopenedBefore(after, i)
    ensures AllowedAt(w, after, i)
  {
    hide Regular, Rebuilt, Separate, ReopenedBefore;
  }

  /** A version 1 session that ends with an upgrade, its last changes not written to the store. */
  method SessionThenUpgrade(format: TrieFormat, db: Contents, commands: seq<Command>) returns (r: WorldState)
    requires LawfulFormat(format) && forall c | c in commands :: Sensible(format, V1, c)
    ensures fresh(r) && r.version == V2 && r.format == format && Rebuilt(r.Snapshot())
    ensures ReadsAs(r.Snapshot(), Run(format, NOTHING, commands))
    ensures Means(r.Snapshot(), UpgradedLedger(Run(format, NOTHING, commands)))
  {
    ghost var l := Run(format, NOTHING, commands);
    var ws := Session(format, V1, db, commands);
    ghost var w := ws.Snapshot();
    LoadableHasHashes(w);
    hide Run, Loadable, Means, ReadsAs, AccountsIn, ContentsOf, HashesSized, HashIn, InMode, WellFormed, UpgradedLedger;
    var upgraded := ws.Upgrade();
    r := upgraded.value;
    UpgradedIsWellFormed(r.Snapshot());
    UpgradeReads(w, r.Snapshot(), l);
    UpgradeMeans(w, r.Snapshot(), l);
  }

  lemma UpgradedIsWellFormed(w: World)
    requires Loadable(w)
    ensures WellFormed(w.version, AccountsIn(w))
  {
    hide WellFormed, AccountsIn;
  }

  lemma LoadableHasHashes(w: World)
    requires Regular(w) && w.version == V1
    ensures Loadable(w) && Entered(w) && WellFormed(V1, AccountsIn(w))
    ensures forall c | ContentsOf(w.format, w.db, w.accounts) == Some(c) :: HashesSized(V1, c)
  {
  }
}
