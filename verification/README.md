# ParallelChain world state: a verified model

The world state keeps accounts and their storage in Merkle Patricia Tries, and keeps network-wide state (validator
sets, pools, stakes, deposits) in data structures that are laid over a flat store of byte keys. This project models both
and proves what their users rely on.

## The network account (`src/network_account_storage`)

An `IndexMap` is a length cell, a key-to-index table (KI) and an index-to-value table (IV), all byte keys of one shared
store. An `IndexHeap` is a bounded binary min-heap on top of it. A `ValidatorPool` is an `IndexMap` of operators with a
pool nested for each, and in each pool an `IndexHeap` of stakes; only prefix bytes keep them apart.

- `Bytes`, `KeyValueStore`: little-endian integers; the store, where `delete` removes a key.
- `IndexCells`, `IndexMaps`: the byte layout, what stored bytes encode, what every write does to it, and the map itself.
- `HeapOrder`, `KeepLargest`: sifting and offering on sequences, for any total preorder, with the number of swaps.
- `IndexHeaps`, `HeapRuns`: the heap in the store, every run of its operations, draining it, copying it.
- `Stakes`, `KeyedHeaps`, `NextValidators`: stakes (ordered by power alone, so distinct stakes tie) and pool keys (a
  total order); their heaps by owner, by operator and by power.
- `PoolCells`, `Pools`, `PoolRuns`: nested pools, the validator set, every run of pushes and clears.
- `NetworkAccount`: the logical cells of all domains, their byte keys, what each structure may write, and runs on one
  structure beside all the others.
- `Deposits`: the fields of a deposit.

The state of each structure is what the stored bytes decode to; nothing is kept beside the bytes. Values are keyed and
serialized by a `Codec`. The Borsh layouts of stakes, optional stakes and pool keys are written out, and their round
trips proved, rather than assumed.

## The world state (`src/db.rs`, `src/accounts_trie.rs`, `src/storage_trie.rs`, `src/world_state.rs`)

- `Overlays`: physical keys in both versions, the overlay of inserts and deletes, and `KeyInstrumentedDB`.
- `Tries`: a trie as a finite map with its nodes in an overlay; which keys its changes can have.
- `AccountsTries`, `StorageTries`: their keys, `all`, and both upgrades.
- `Worlds`, `WorldStates`: the cache of storage tries, every operation on a whole state, closing, reopening, upgrading.
- `Closing`: merging the changes of all tries, and which nodes are still there once the merge is written.
- `Sessions`: whole runs of updates, closes and reopenings against a plain map, in version 1, through an upgrade, and on.
- `TrieWitness`, `UpgradeWitness`: an example of a trie format, and an upgrade that one order of writing spoils.

The node encoding and the hashing of tries belong to libraries. A `TrieFormat` stands for them: the nodes of some
contents, their root, what a store holds under a root, and whether a key set to the empty value is kept or removed; all
results hold for both. `LawfulFormat` assumes that contents can be loaded back by their root from any store that has
their nodes, and that only the empty contents have the root of the empty trie. A trie that commits new contents drops
nodes that only the old contents have and writes those of the new.

Closing in version 1 assumes one thing more, `Separate`: the key of a node is the path to it and its hash, and no node of
the accounts trie that lies at or below the address of a storage trie has the hash of a node of that storage trie at the
same place. Such nodes differ, because account keys go on with the Protected byte after the address and storage keys with
the Public byte, so this is what a collision-free hash gives. `TrieWitness.LawfulFormatExists` shows that there are
formats with all that is assumed.

## Where the code and a reader's expectation differ

- `ValidatorPool::pool` answers for every operator that was ever pushed, also once the set is cleared, because
  `clear` zeroes the length and leaves the index entries (src/network_account_storage/pool.rs:233-241). `PoolRuns.Execute`
  says exactly for which operators it answers; `ClearedOperatorStillAnswers` is a concrete case.
- `ValidatorPool::push` drops the answer of `reset` (src/network_account_storage/pool.rs:228): a stake list longer than
  the capacity leaves the stakes that were nested there before. So a push reads back exactly if its list fits
  (`PoolRuns.ReadsBackLast`); `OneStakeTooMany` is a push that does not. Pushes need no precondition on operators or
  owners.
- `IndexMap::reset` compares the length after truncating it to 32 bits (src/network_account_storage/index_map.rs:78).
  With 2^32 values or more it either fails as it should or, when the truncated length fits, leaves bytes that are those of
  no sequence: `IndexMaps.IndexMap.Reset` says exactly when, and `Pools.ValidatorPool.Push` what that means for a push.
- In version 1 the physical keys of two tries can look alike (src/db.rs:110-117): a node of the accounts trie has the key
  of a storage trie's node exactly if it has the same hash and lies at the same place below the address
  (`Overlays.V1NodesMeet`). Where this does not happen (`Separate`, above), closing keeps everything, as in version 2.
- Right after an upgrade the overlays hold deletes of version 1 keys beside inserts of version 2 keys
  (src/db.rs:133-143), and these can meet: the leaf of the code of account `1 a[..31]` and the leaf of storage key `2` of
  account `a`, if `a` ends in 1 and both hold the same (`Overlays.OldMeetsNew`). Writing deletes before inserts, as the
  crate's README does (README.md:36-43), keeps all that is needed in any case. Writing inserts first, as the stores of the
  crate's tests do (tests/integration_test.rs:36-43), keeps it exactly if no needed node has the key of a deleted one, so
  always if no key is both inserted and deleted (`WorldStates.UpgradedInsertsFirst`).
  `UpgradeWitness.InsertsFirstLoses` is an upgrade after which it is not kept: from an empty state, with one code and one
  storage entry, for whatever hash.
- The upgrade drops nonces and balances that are stored as explicit zeros (src/accounts_trie.rs:454-463), so
  `contains_nonce` and `contains_balance` change for exactly those; the values read do not.
- `close` works on copies of the cached storage tries (src/world_state.rs:173), so those keep their changes, while the
  accounts trie gives its changes up.
- The comment on `ValidatorPool` says that a pool is stored as a single value (src/network_account_storage/pool.rs:160-162);
  the code stores it field by field, and so does the model.

## Model

| member | source | states |
|---|---|---|
| Bytes.FromToLe | src/network_account_storage/index_map.rs:53 | reading the little-endian bytes of a number gives the number back |
| Bytes.ToFromLe | src/network_account_storage/index_map.rs:97 | every byte string is the encoding of the number read from it, so encoding is a bijection |
| Bytes.Le32Onto | src/network_account_storage/index_map.rs:105 | every four bytes are one index, so KI and IV cells cannot alias |
| Bytes.LaterBytesWeighMore | src/network_account_storage/index_map.rs:119 | the order of the bytes: each weighs 256 times the one before it |
| Bytes.OneByte | src/network_account_storage/index_map.rs:53 | a single byte is worth its number |
| Bytes.NextByte | src/network_account_storage/index_map.rs:53 | a further byte weighs 256 to the number of bytes before it |
| Bytes.FourBytes | src/network_account_storage/index_map.rs:53 | what a 32-bit number is, byte by byte |
| Bytes.EightBytes | src/network_account_storage/pool.rs:81 | what a 64-bit number is, from its two halves |
| IndexCells.LinkedUnique | src/network_account_storage/index_map.rs:50-55 | stored bytes determine the sequence they encode |
| IndexCells.MutuallyInverse | src/network_account_storage/index_map.rs:101-125 | with distinct keys KI and IV are mutually inverse below the length, and KI answers for exactly the keys present |
| IndexCells.ShapeOf | src/network_account_storage/index_map.rs:32-34 | a key under the domain is the length, KI or IV key its prefix byte announces and no other |
| IndexCells.Layout | src/network_account_storage/index_map.rs:32-34 | the keys of the cells and what is written to them, in bytes |
| IndexCells.ReadBack | src/network_account_storage/index_map.rs:50-125 | what reading each cell gives: 0 or nothing for an absent one, else what was written |
| IndexCells.AppendEntry | src/network_account_storage/index_map.rs:64-74 | appending extends the encoded sequence by one value, stale cells or not, and adds no stale cell |
| IndexCells.OverwriteEntry | src/network_account_storage/index_map.rs:130-141 | overwriting an entry by a value of its key changes that entry alone |
| IndexCells.SwapEntries | src/network_account_storage/index_heap.rs:255-258 | the two writes of `swap` exchange two entries and leave KI, IV and the length consistent |
| IndexCells.DropLast | src/network_account_storage/index_map.rs:143-154 | deleting the last entry and shortening the length leaves exactly the rest, nothing stale |
| IndexCells.ReplaceIsSwapAndDrop | src/network_account_storage/index_heap.rs:228-250 | the two deletions `replace` calls unnecessary are: it leaves the cells that a swap and a full deletion would |
| IndexCells.ReplaceByLast | src/network_account_storage/index_heap.rs:228-250 | `replace` and the shorter length move the last entry over another, keys stay distinct and nothing stale remains |
| IndexCells.ClearAll | src/network_account_storage/index_map.rs:156-163 | after every entry is deleted only the length cell is left, even when keys repeat |
| IndexCells.FootprintKeys | src/network_account_storage/index_map.rs:127-154 | the physical keys under a domain are the length cell, the IV key of each index and the KI key of each value |
| IndexCells.ExactFootprint | src/network_account_storage/index_map.rs:127-154 | n values with distinct keys take exactly 1 + 2n cells |
| IndexCells.WritesStayInside | src/network_account_storage/index_map.rs:95-154 | no write of a map touches a key outside its domain |
| IndexCells.InsideDecides | src/network_account_storage/index_map.rs:27-47 | what a map holds depends on nothing but the cells of its domain |
| IndexMaps.IndexMap.constructor | src/network_account_storage/index_map.rs:36-47 | a map is its domain, store and capacity; making one writes nothing |
| IndexMaps.IndexMap.Length | src/network_account_storage/index_map.rs:50-55 | the number that the four bytes of the length cell spell, 0 if it is absent |
| IndexMaps.IndexMap.SetLength | src/network_account_storage/index_map.rs:95-99 | writes the length cell only |
| IndexMaps.IndexMap.IndexOfKey | src/network_account_storage/index_map.rs:101-106 | the index in the KI cell of a key, nothing if it is absent |
| IndexMaps.IndexMap.Get | src/network_account_storage/index_map.rs:111-125 | nothing from the capacity on or where the IV cell is absent, else what the cell decodes to, whether or not the index is below the length |
| IndexMaps.IndexMap.GetBy | src/network_account_storage/index_map.rs:58-61 | the value at the index of the key |
| IndexMaps.IndexMap.Set | src/network_account_storage/index_map.rs:130-141 | writes KI of the value's key and IV of the index, and nothing outside the domain |
| IndexMaps.IndexMap.Delete | src/network_account_storage/index_map.rs:143-154 | removes the KI and IV cell of an entry |
| IndexMaps.IndexMap.Push | src/network_account_storage/index_map.rs:64-74 | fails without a write exactly when full, else appends |
| IndexMaps.IndexMap.Clear | src/network_account_storage/index_map.rs:156-163 | empties the map and leaves only the length cell under the domain |
| IndexMaps.IndexMap.Reset | src/network_account_storage/index_map.rs:77-93 | fails without a write exactly when the truncated length exceeds the capacity; else there are fewer than 2^32 values and it holds exactly them, or there are more and no sequence is left |
| IndexMaps.IndexMap.Refill | src/network_account_storage/index_map.rs:86-89 | the loop that writes the values one after the other before the length |
| HeapOrder.UpMakesHeap | src/network_account_storage/index_heap.rs:208-223 | sifting up from the one place that may be out of order restores heap order |
| HeapOrder.DownMakesHeap | src/network_account_storage/index_heap.rs:177-205 | sifting down from the one place that may be out of order restores heap order |
| HeapOrder.UpKeepsAll | src/network_account_storage/index_heap.rs:208-223 | sifting up only rearranges |
| HeapOrder.DownKeepsAll | src/network_account_storage/index_heap.rs:177-205 | sifting down only rearranges |
| HeapOrder.Children | src/network_account_storage/index_heap.rs:177-223 | the children of an entry are at twice its place plus one and two, and nowhere else |
| HeapOrder.UpIsShift | src/network_account_storage/index_heap.rs:208-223 | sifting up moves a value past exactly the ancestors that it is less than, each of which moves one place down, and nothing else; values that tie are not passed |
| HeapOrder.DownIsShift | src/network_account_storage/index_heap.rs:177-205 | sifting down moves a value past the child that gives way at each level, the left one on a tie, until none is less, and nothing else moves |
| HeapOrder.UpSwapsBound | src/network_account_storage/index_heap.rs:208-223 | at most floor(log2(index + 1)) swaps upward |
| HeapOrder.DownSwapsBound | src/network_account_storage/index_heap.rs:177-205 | at most floor(log2(length)) - floor(log2(index + 1)) swaps downward |
| HeapOrder.Log2Bounds | src/network_account_storage/index_heap.rs:177-223 | the logarithm in these bounds is the binary one |
| HeapOrder.RootIsLeast | src/network_account_storage/index_heap.rs:43-49 | no value of a heap is less than its root |
| HeapOrder.InsertedIsHeap | src/network_account_storage/index_heap.rs:67-81 | inserting keeps heap order and adds exactly the value |
| HeapOrder.Sifts | src/network_account_storage/index_heap.rs:44-174 | where each operation puts which value before it sifts, and which way it sifts |
| HeapOrder.ExtractTakesLeast | src/network_account_storage/index_heap.rs:44-65 | extracting takes a least value, exactly one, and keeps heap order |
| HeapOrder.ChangedIsHeap | src/network_account_storage/index_heap.rs:109-130 | changing an entry up or down keeps heap order and replaces exactly that entry |
| HeapOrder.TieKeepsHeap | src/network_account_storage/index_heap.rs:165-173 | when the moved last value ties with the removed one, heap order holds without sifting |
| HeapOrder.RemovedIsHeap | src/network_account_storage/index_heap.rs:143-174 | removing any entry keeps heap order and removes exactly it, whether the moved last value sinks, rises or ties |
| HeapOrder.DrainSorts | src/network_account_storage/index_heap.rs:44-65 | repeated extraction gives a sorted permutation of the heap |
| KeepLargest.OfferKeepsSplit | src/network_account_storage/index_heap.rs:87-106 | one offer keeps the division into kept and lost values in which no kept value is less than a lost one |
| KeepLargest.OfferAllSplits | src/network_account_storage/index_heap.rs:87-106 | any sequence of offers ends in such a division of everything offered |
| KeepLargest.CountIsSize | src/network_account_storage/index_heap.rs:83-106 | the counts below are the numbers of positions whose value passes |
| KeepLargest.KeepsGreatest | src/network_account_storage/index_heap.rs:83-106 | at or above every threshold as many values are kept as were offered, up to the capacity |
| KeepLargest.KeepsExactlyTop | src/network_account_storage/index_heap.rs:83-106 | under a total order exactly the offered values that fewer than n offered ones exceed are kept, and nothing else |
| IndexHeaps.IndexHeap.constructor | src/network_account_storage/index_heap.rs:33-41 | a heap is a view of its domain in the store; making one writes nothing |
| IndexHeaps.IndexHeap.Untouched | src/network_account_storage/index_heap.rs:33-41 | a domain that was never written holds the empty heap |
| IndexHeaps.IndexHeap.GetBy | src/network_account_storage/index_map.rs:58-61 | finds an entry of the key if and only if the heap has one |
| IndexHeaps.IndexHeap.Locate | src/network_account_storage/index_heap.rs:109-114 | the index of a key and that it is below the length, or that no entry has the key |
| IndexHeaps.IndexHeap.UnorderedValues | src/network_account_storage/index_heap.rs:133-140 | all values in index order |
| IndexHeaps.IndexHeap.SwapValues | src/network_account_storage/index_heap.rs:255-258 | the stored sequence with two entries exchanged |
| IndexHeaps.IndexHeap.UpHeapify | src/network_account_storage/index_heap.rs:208-223 | the loop in the store does what sifting up does on the sequence, within the swap bound, no `unwrap` failing |
| IndexHeaps.IndexHeap.LeastOfFamily | src/network_account_storage/index_heap.rs:179-195 | the least of an entry and its children, preferring the entry, then the left child; no index overflows 32 bits |
| IndexHeaps.IndexHeap.DownHeapify | src/network_account_storage/index_heap.rs:177-205 | the loop in the store does what sifting down does on the sequence, within the swap bound, no `unwrap` failing |
| IndexHeaps.IndexHeap.Replace | src/network_account_storage/index_heap.rs:228-250 | two deletions and a set, inside the domain |
| IndexHeaps.IndexHeap.ReplaceWithLast | src/network_account_storage/index_heap.rs:166-167 | the last entry takes over a position and the length shrinks by one |
| IndexHeaps.IndexHeap.Extract | src/network_account_storage/index_heap.rs:44-65 | takes the root; an empty heap gives nothing and writes nothing |
| IndexHeaps.IndexHeap.Insert | src/network_account_storage/index_heap.rs:68-81 | a full heap refuses without a write, else the value is inserted |
| IndexHeaps.IndexHeap.InsertExtract | src/network_account_storage/index_heap.rs:87-106 | refuses exactly when full and less than the root, else inserts and hands out the root exactly when full |
| IndexHeaps.IndexHeap.ChangeKey | src/network_account_storage/index_heap.rs:109-130 | a present key gets the new value, an absent one changes nothing; doing nothing on a tie is right since equal key and order mean an equal value |
| IndexHeaps.IndexHeap.RemoveItem | src/network_account_storage/index_heap.rs:143-174 | the entry of the key goes, an absent key changes nothing |
| IndexHeaps.IndexHeap.RemoveBelowRoot | src/network_account_storage/index_heap.rs:155-173 | the branches for an entry other than the root |
| IndexHeaps.IndexHeap.MoveLast | src/network_account_storage/index_heap.rs:161-173 | the last value takes the place of the removed one and then sinks, rises or stays |
| IndexHeaps.IndexHeap.Clear | src/network_account_storage/index_map.rs:156-163 | an empty heap, only the length cell left under the domain |
| IndexHeaps.IndexHeap.Footprint | src/network_account_storage/index_heap.rs:228-250 | once the length is written the heap takes exactly 1 + 2n cells, so no operation leaves a stale one |
| HeapRuns.StepKeeps | src/network_account_storage/index_heap.rs:43-174 | every operation keeps heap order, distinct keys and the capacity |
| HeapRuns.RunKeeps | src/network_account_storage/index_heap.rs:43-174 | every run of operations keeps them |
| HeapRuns.OfferableExactly | src/network_account_storage/index_heap.rs:83-106 | what offering demands of the key is demanded exactly: keys are distinct afterwards if and only if no other entry than a refusing or evicted root has the key |
| HeapRuns.Execute | src/network_account_storage/index_heap.rs:43-258 | over every run the stored bytes decode to the heap the run on sequences leaves; nothing outside the domain changes |
| HeapRuns.Drain | src/network_account_storage/index_heap.rs:44-65 | extracting until empty returns the values sorted and leaves one cell |
| HeapRuns.ChangedByKey | src/network_account_storage/index_heap.rs:109-130 | after `change_key` the key has the new value and every other key the value it had |
| HeapRuns.RemovedByKey | src/network_account_storage/index_heap.rs:143-174 | after `remove_item` an entry is there if and only if it was and has another key |
| HeapRuns.OfferedKeyIsNew | src/network_account_storage/index_heap.rs:87-106 | a heap filled by offers holds only offered values, so keys that are distinct among the offers stay new |
| HeapRuns.OffersKeepGreatest | src/network_account_storage/index_heap.rs:87-106 | offering values of distinct keys is an allowed run, and it ends with the greatest ones |
| HeapRuns.CopyHeap | src/network_account_storage/index_heap.rs:133-140 | resetting a heap from the unordered values of another copies it index for index and keeps heap order; without room nothing changes |
| Stakes.StakesOrdered | src/network_account_storage/stake.rs:41-78 | stakes are totally preordered by power, stakes of one owner that tie are equal, and serialization is undone by deserialization |
| Stakes.StakesTie | src/network_account_storage/stake.rs:48-64 | two stakes tie if and only if their powers are equal, and one is less if and only if its power is |
| Stakes.OptionalStakeRoundTrip | src/network_account_storage/pool.rs:110-121 | an optional stake reads back as written |
| Stakes.KeyedBy | src/network_account_storage/pool.rs:305-309 | stakes are keyed by owner, pool keys by operator, pool addresses by address |
| Stakes.WrittenAs | src/network_account_storage/pool.rs:341-345 | the bytes that stakes, optional stakes, pool keys and pool addresses are written as |
| Stakes.Decodes | src/network_account_storage/pool.rs:347-355 | which bytes decode, and that they are the encoding of what they decode to |
| Stakes.LexTotal | src/network_account_storage/pool.rs:332-339 | byte order of operators is total |
| Stakes.LexTransitive | src/network_account_storage/pool.rs:332-339 | byte order of operators is transitive |
| Stakes.LexByFirstDifference | src/network_account_storage/pool.rs:335 | of two operators the smaller is the one with the smaller byte where they first differ |
| Stakes.PoolKeyOrder | src/network_account_storage/pool.rs:322-339 | more power always wins, and only among equal powers does the operator decide |
| Stakes.PoolKeysOrdered | src/network_account_storage/pool.rs:311-355 | pool keys are totally ordered by power and then operator, only equal ones tie, and they read back as written |
| NextValidators.NextValidatorsAreTop | src/network_account_storage/network_account.rs:66-74 | a pool key is among the next validators if and only if it was offered and fewer than n offered ones exceed it |
| NextValidators.StakesKeepGreatestPowers | src/network_account_storage/pool.rs:123-129 | a heap of n stakes ends with the n greatest powers offered; among equal powers the owners are not determined |
| NextValidators.OfferPools | src/network_account_storage/network_account.rs:66-74 | the stored heap ends with exactly the offered pools that fewer than n offered ones exceed, nothing outside its domain changing |
| KeyedHeaps.FindPool | src/network_account_storage/index_map.rs:58-61 | `get_by` of an operator answers if and only if an entry has that operator, and gives that entry |
| KeyedHeaps.ChangePower | src/network_account_storage/index_heap.rs:109-130 | `change_key` gives the operator the new power and leaves all other operators theirs; without an entry nothing is written |
| KeyedHeaps.RemovePool | src/network_account_storage/index_heap.rs:143-174 | `remove_item` removes the entry of the operator and no other |
| KeyedHeaps.FindStake | src/network_account_storage/index_map.rs:58-61 | `get_by` of an owner answers if and only if the owner has a stake, and gives that stake |
| KeyedHeaps.ChangeStake | src/network_account_storage/index_heap.rs:109-130 | `change_key` gives the owner the new power and leaves all other owners theirs; without a stake nothing is written |
| KeyedHeaps.RemoveStake | src/network_account_storage/index_heap.rs:143-174 | `remove_item` removes the stake of the owner and no other |
| KeyedHeaps.OfferStake | src/network_account_storage/index_heap.rs:87-106 | a full heap refuses a stake if and only if its power is below the power of the root, which is the least; else it gives up the root, also to a stake of equal power |
| PoolCells.NestedDependsOnPrefix | src/network_account_storage/pool.rs:195-203 | a nested pool is decided by the cells under its prefix |
| PoolCells.WriteFields | src/network_account_storage/pool.rs:220-225 | the four setters make the fields read as the pool and leave its stakes alone |
| PoolCells.DeleteFields | src/network_account_storage/pool.rs:131-139 | deleting the fields leaves none and leaves the stakes alone |
| PoolCells.StakesKeepFields | src/network_account_storage/pool.rs:248-254 | writes to the stakes of a pool keep its fields and all cells under other prefixes |
| PoolCells.OuterKeepsNested | src/network_account_storage/pool.rs:174-177 | writes to the outer map leave every nested pool as it is |
| PoolCells.OneNestedChanges | src/network_account_storage/pool.rs:192-204 | writes under one operator's prefix leave all other nested pools as they are |
| PoolCells.NestedKeepsOuter | src/network_account_storage/pool.rs:174-177 | writes to nested pools leave the outer map as it is |
| PoolCells.OuterForget | src/network_account_storage/pool.rs:240 | zeroing the length empties the set and leaves every KI entry behind |
| PoolCells.FillingUnique | src/network_account_storage/pool.rs:192-209 | the bytes determine the validator set, its pools and its stakes |
| Pools.PoolDict.Exists | src/network_account_storage/pool.rs:54-57 | whether the operator cell is there, which is whether there is a pool |
| Pools.PoolDict.Operator | src/network_account_storage/pool.rs:59-67 | the operator in its cell, nothing if the cell is absent or malformed, whatever else is stored |
| Pools.PoolDict.Power | src/network_account_storage/pool.rs:76-84 | the power in its cell, nothing if the cell is absent or malformed, whatever else is stored |
| Pools.PoolDict.CommissionRate | src/network_account_storage/pool.rs:93-101 | the rate in its cell, nothing if the cell is absent or malformed, whatever else is stored |
| Pools.PoolDict.OperatorStake | src/network_account_storage/pool.rs:110-114 | the optional stake in its cell, nothing if the cell is absent, whatever else is stored |
| Pools.PoolDict.TryIntoPool | src/network_account_storage/pool.rs:145-158 | the whole pool exactly when all four cells are there and none is malformed |
| Pools.PoolDict.SetOperator | src/network_account_storage/pool.rs:69-74 | writes the operator cell and no other |
| Pools.PoolDict.SetPower | src/network_account_storage/pool.rs:86-91 | writes the power cell and no other |
| Pools.PoolDict.SetCommissionRate | src/network_account_storage/pool.rs:103-108 | writes the rate cell and no other |
| Pools.PoolDict.SetOperatorStake | src/network_account_storage/pool.rs:116-121 | writes the cell of the operator's stake and no other |
| Pools.PoolDict.Delete | src/network_account_storage/pool.rs:131-142 | no field is left, and of the stakes only the length cell; no other cell changes |
| Pools.PoolDict.DelegatedStakes | src/network_account_storage/pool.rs:123-129 | a heap view of the stakes under the pool's prefix |
| Pools.PoolDict.ResetStakes | src/network_account_storage/pool.rs:227-228 | a list that fits replaces the stakes, a longer one changes nothing, and one so long that its length wraps around leaves no list |
| Pools.ValidatorPool.constructor | src/network_account_storage/pool.rs:179-186 | a set is a view of its prefix in the store |
| Pools.ValidatorPool.Untouched | src/network_account_storage/pool.rs:179-190 | a domain that was never written holds the empty set and answers for no operator |
| Pools.ValidatorPool.Length | src/network_account_storage/pool.rs:188-190 | how many operators the set has |
| Pools.ValidatorPool.Pool | src/network_account_storage/pool.rs:192-204 | answers exactly when the operator has an index entry, so always for members, with the pool nested for it |
| Pools.ValidatorPool.PoolAt | src/network_account_storage/pool.rs:206-209 | answers if and only if the index is below the capacity, has an IV cell, and `pool` answers for the address there, whose pool it then is; below the length that is the operator there |
| Pools.ValidatorPool.Push | src/network_account_storage/pool.rs:212-230 | refuses without a write exactly when full, else appends the operator and sets its pool and stakes; only its prefix changes; the bytes stay those of a set exactly if the push is refused or its list does not wrap around; outside the pool of the operator only the cells of the appended entry and the length change |
| Pools.ValidatorPool.AppendOperator | src/network_account_storage/pool.rs:217-218 | refuses exactly when full, else appends the operator; what is nested stays, and `pool` answers for one more operator |
| Pools.ValidatorPool.FillPushed | src/network_account_storage/pool.rs:220-229 | filling the pool of an operator that was just appended completes the push |
| Pools.ValidatorPool.FillPool | src/network_account_storage/pool.rs:220-228 | sets the fields and the stakes of one pool and nothing beyond its prefix |
| Pools.ValidatorPool.Clear | src/network_account_storage/pool.rs:233-241 | empties the set and every nested pool, changes no operator's answer from `pool`, and writes nothing but a zero length outside those pools |
| Pools.ValidatorPool.ClearPools | src/network_account_storage/pool.rs:235-239 | the loop: every nested pool of the set goes, the outer map stays as it was |
| Pools.ValidatorPool.ClearOnePool | src/network_account_storage/pool.rs:236-238 | one round: the pool at an index and its stakes are gone, the others are as they were |
| PoolRuns.OnlyLastFilling | src/network_account_storage/pool.rs:211-241 | whatever was filled and cleared before, only the pushes since the last clear matter |
| PoolRuns.MembersWerePushed | src/network_account_storage/pool.rs:211-241 | every operator of the set was pushed at some time |
| PoolRuns.ReadsBackLast | src/network_account_storage/pool.rs:206-230 | the first N pushes are accepted and index i has the operator of the i-th; if no later accepted push is for that operator, its pool is under it, and its stakes if and only if they fit |
| PoolRuns.KeptFit | src/network_account_storage/pool.rs:220-228 | every pool is held under its own operator, with no more stakes than fit |
| PoolRuns.StakesAreLastThatFit | src/network_account_storage/pool.rs:226-228 | the stakes of an operator are those of the last accepted push for it whose list fits |
| PoolRuns.NoneThatFits | src/network_account_storage/pool.rs:226-228 | an operator whose accepted pushes all brought too many stakes has none |
| PoolRuns.OneStakeTooMany | src/network_account_storage/pool.rs:226-228 | a push that does not read back: with one stake too many the pool is there and has no stake |
| PoolRuns.ReadsBackAll | src/network_account_storage/pool.rs:206-230 | with distinct operators and stake lists that fit, index i reads back exactly the i-th pool pushed and its stakes |
| PoolRuns.Execute | src/network_account_storage/pool.rs:188-241 | over every run whose accepted stake lists do not wrap around, the bytes decode to the set the run on values leaves, and `pool` answers for exactly the operators it answered for or that were pushed |
| PoolRuns.ExecuteFresh | src/network_account_storage/pool.rs:188-241 | from a domain that answers for nobody, `pool` tells membership if and only if all operators ever pushed are in the current filling |
| PoolRuns.RunAndRead | src/network_account_storage/pool.rs:188-241 | after any run from an empty set, `pool_at(i)` reads the operator of the i-th push since the last clear, and the pool of the last accepted push for it, with its stakes if and only if they fit |
| PoolRuns.ReadBack | src/network_account_storage/pool.rs:206-209 | reading an index below the length through the dictionary gives the pool and stakes of that member |
| PoolRuns.ClearedOperatorStillAnswers | src/network_account_storage/pool.rs:233-241 | `pool` is not membership: a pushed and cleared operator is still answered for |
| PoolRuns.PushedStakesAreHeap | src/network_account_storage/pool.rs:227-228 | stakes pushed in heap order with distinct owners are a valid heap |
| NetworkAccount.ParseCellKey | src/network_account_storage/network_account.rs:53-119 | the byte key of a logical cell parses back to the cell |
| NetworkAccount.CellKeysInjective | src/network_account_storage/network_account.rs:53-119 | no two logical cells of any domains share a byte key |
| NetworkAccount.Layout | src/network_account_storage/network_account.rs:53-119 | the key of each kind of cell, in bytes |
| NetworkAccount.WritesOnlyOwn | src/network_account_storage/network_account.rs:53-119 | among the keys of all cells a structure writes exactly those of its own cells |
| NetworkAccount.OthersUnchanged | src/network_account_storage/network_account.rs:53-119 | what the contracts of a structure say of the rest of the store leaves the cells of all other structures as they are |
| NetworkAccount.KeyUnchanged | src/network_account_storage/network_account.rs:53-119 | the same for any byte key that the structure does not write |
| NetworkAccount.Pvp | src/network_account_storage/network_account.rs:54-59 | the previous validator set lies at its own prefix |
| NetworkAccount.Vp | src/network_account_storage/network_account.rs:62-64 | the current validator set lies at its own prefix |
| NetworkAccount.Nvp | src/network_account_storage/network_account.rs:68-74 | the next validators are a heap of pool keys at its own prefix |
| NetworkAccount.SetDependsOnPrefix | src/network_account_storage/network_account.rs:53-64 | a validator set with all its pools is decided by the cells under its prefix |
| NetworkAccount.RunOnSet | src/network_account_storage/network_account.rs:53-74 | any run of pushes and clears on one validator set leaves the other set, the next heap and the cells of all other structures as they were |
| NetworkAccount.RunOnNext | src/network_account_storage/network_account.rs:53-74 | any run on the next heap leaves both validator sets and the cells of all other structures as they were |
| NetworkAccount.RunOnStakes | src/network_account_storage/network_account.rs:53-82 | any run on the stakes of a pool leaves the cells of all other structures as they were |
| NetworkAccount.PoolsOf | src/network_account_storage/network_account.rs:76-82 | the pool of an operator lies at its own prefix |
| NetworkAccount.DeletePool | src/network_account_storage/network_account.rs:76-82 | deleting it leaves nothing of it and the cells of all other structures as they were |
| NetworkAccount.CurrentEpochOf | src/network_account_storage/network_account.rs:96-102 | the epoch set last, 0 if none was |
| NetworkAccount.SetCurrentEpoch | src/network_account_storage/network_account.rs:104-109 | the epoch cell alone changes |
| Deposits.DepositDict.Exists | src/network_account_storage/deposit.rs:41-44 | whether the balance cell is there |
| Deposits.DepositDict.Balance | src/network_account_storage/deposit.rs:46-54 | the balance in its cell, nothing if the cell is absent or malformed |
| Deposits.DepositDict.SetBalance | src/network_account_storage/deposit.rs:56-61 | writes the balance cell; the cells of all other structures stay |
| Deposits.DepositDict.AutoStakeRewards | src/network_account_storage/deposit.rs:63-73 | true exactly if the cell holds the byte 1, nothing if it is absent |
| Deposits.DepositDict.SetAutoStakeRewards | src/network_account_storage/deposit.rs:75-89 | writes the cell; the cells of all other structures stay |
| Deposits.DepositDict.Delete | src/network_account_storage/deposit.rs:91-103 | removes both cells; the cells of all other structures stay |
| Deposits.SetAndRead | src/network_account_storage/deposit.rs:41-103 | both fields read back as set, and nothing is left after the delete |
| Overlays.SpacesApart | src/db.rs:118-127 | in version 2 physical keys meet only for the same trie and the same key |
| Overlays.Layout | src/db.rs:106-130 | the physical key of a node in both versions, in bytes |
| Overlays.NodeKeysMeet | src/mpt.rs:330-341 | node keys of two tries, of whichever versions, are the same exactly if the hashes are and the paths below the start of the keys are |
| Overlays.V1NodesMeet | src/db.rs:110-117 | in version 1 a node of the accounts trie has the key of a storage node exactly if it has its hash and its path below the address |
| Overlays.OldMeetsNew | src/db.rs:107-128 | a version 1 account node and a version 2 storage node that have one key: where the keys before and after an upgrade can meet |
| Overlays.OrderDoesNotMatter | src/db.rs:97-104 | disjoint changes give the same store, the same as the view through the overlay, in either order |
| Overlays.OverlapMatters | src/db.rs:97-104 | the two orders agree if and only if no key is both inserted and deleted |
| Overlays.WrittenAt | src/db.rs:67-104 | key by key, what is read through an overlay and what each order of writing leaves |
| Overlays.PutRefinesMap | src/db.rs:84-88 | a put through the overlay is a put to the plain map |
| Overlays.DeleteRefinesMap | src/db.rs:91-95 | a delete through the overlay is a removal from the plain map |
| Overlays.KeyInstrumentedDB.Get | src/db.rs:67-81 | reads what the updated store would hold |
| Overlays.KeyInstrumentedDB.Put | src/db.rs:84-88 | updates the plain map, keeps inserts and deletes disjoint, returns the earlier insert |
| Overlays.KeyInstrumentedDB.Delete | src/db.rs:91-95 | removes from the plain map, keeps inserts and deletes disjoint |
| Overlays.KeyInstrumentedDB.Close | src/db.rs:98-104 | hands over the changes, whose application in either order gives the same view, and forgets them |
| Overlays.Replay | src/db.rs:67-95 | over every run of puts and deletes the database stands for the plain map of the run, inserts and deletes disjoint |
| Overlays.Execute | src/db.rs:67-104 | over every run of puts and deletes the overlay reads as the plain map, and its changes applied in either order give it |
| Tries.PutAllReads | src/db.rs:84-88 | writing many nodes updates what the trie reads by exactly those |
| Tries.PutAllAt | src/db.rs:84-88 | writing many nodes changes the overlay at their physical keys only, inside the key space of the trie |
| Tries.DeleteAllReads | src/db.rs:91-95 | deleting many nodes removes exactly those from what the trie reads |
| Tries.PutAllIsRun | src/mpt.rs:308-319 | writing many nodes leaves the overlay of a run of single puts |
| Tries.DeleteAllIsRun | src/mpt.rs:321-328 | dropping many nodes leaves the overlay of a run of single deletes |
| Tries.BelongsToOne | src/db.rs:107-128 | nodes of different tries have different physical keys: in version 2 always, in version 1 if node keys are separate |
| Tries.CommitHolds | src/mpt.rs:146-224 | dropping the nodes that only the old contents have and writing the fresh ones gives a trie of the new contents |
| Tries.CommitAt | src/mpt.rs:308-328 | for every physical key: a fresh node is inserted, a stale one deleted, any other key untouched |
| Tries.CommitWrites | src/mpt.rs:146-224 | by logical key: new or changed nodes are inserted, nodes that are gone deleted but for those of the empty trie, nodes that stay are not written |
| Tries.CommitWithin | src/mpt.rs:146-224 | changes stay at keys that nodes of this trie can have |
| Tries.CommitTouches | src/mpt.rs:146-224 | a change of contents takes no change of the overlay back, and touches every stale node |
| Tries.CommitFollows | src/mpt.rs:146-224 | a change of contents keeps the overlay tidy: nodes of the trie only, inserts needed, after an upgrade all needed nodes inserted; and no change is taken back |
| Tries.NewHolds | src/mpt.rs:43-68 | a new trie holds the empty contents |
| Tries.NewInserts | src/mpt.rs:43-68 | a new trie inserts the nodes of the empty contents and nothing else |
| Tries.SetAllHolds | src/mpt.rs:146-185 | setting one or many keys gives a trie of the updated contents, empty values kept or removed as the library does, by one commit |
| Tries.WrittenIs | src/mpt.rs:146-161 | the empty value removes the key unless the library keeps it; any other value is what is read |
| Tries.RemoveHolds | src/mpt.rs:189-204 | removing a key, there or not, gives a trie of the remaining contents |
| Tries.RemoveAllHolds | src/mpt.rs:210-224 | removing many keys gives a trie of the remaining contents |
| Tries.NotLoaded | src/mpt.rs:146-283 | a trie that does not load fails and stays as it is; one that is not empty is not upgraded |
| Tries.Loaded | src/mpt.rs:86-90 | what a trie that loads answers; removing a key that is not there changes nothing (src/mpt.rs:189-192) |
| Tries.DeinitHolds | src/mpt.rs:244-283 | an empty version 1 trie becomes an empty version 2 trie on the same overlay |
| Tries.DeinitAt | src/mpt.rs:244-283 | the empty node is deleted under its version 1 key and inserted under its version 2 key, nothing else changes |
| Tries.DeinitRenews | src/mpt.rs:244-283 | of the version 1 overlay only deletes are left beside the node of the empty version 2 trie |
| Tries.EmptiedUpgrades | src/accounts_trie.rs:446-449 | removing all keys leaves a trie that the upgrade accepts, and every old node is deleted or overwritten under its old key |
| AccountsTries.AccountKeyParts | src/accounts_trie.rs:488-536 | address and field are recovered from an account key in both versions |
| AccountsTries.KeyOfParts | src/accounts_trie.rs:488-536 | every well-formed key is the account key of its parts |
| AccountsTries.AccountKeyInjective | src/accounts_trie.rs:488-509 | no two fields of any accounts share a key |
| AccountsTries.AccountLayout | src/accounts_trie.rs:58-81 | the key of each of the five fields in both versions, in bytes |
| AccountsTries.PointReads | src/accounts_trie.rs:83-201 | what each point read answers, from the bytes under the keys: what was set, 0 or nothing for an absent field |
| AccountsTries.RecordIs | src/accounts_trie.rs:225-269 | what `all` reports of an account, from the bytes under the keys, and which accounts it reports |
| AccountsTries.ReadableEntries | src/accounts_trie.rs:228-265 | which entries are malformed: keys that are too short or name no field, numbers of a wrong length |
| AccountsTries.CollectOne | src/accounts_trie.rs:228-266 | one more entry keeps the collected records equal to the point reads |
| AccountsTries.ReadEntry | src/accounts_trie.rs:229-265 | address and field of an entry, or an error exactly when one is malformed; a key error before a value error |
| AccountsTries.All | src/accounts_trie.rs:225-269 | for any iteration order: exactly the addresses that an entry names, each with the fields that entries name; the record of its point reads if the keys are account keys; an error exactly when an entry is malformed |
| AccountsTries.Reencode | src/accounts_trie.rs:451-476 | for any order: exactly the fields worth keeping under version 2 keys, and exactly the storage hashes |
| AccountsTries.ReencodedMeansSame | src/accounts_trie.rs:406-480 | nonce, balance, cbi version and non-empty code read the same after re-encoding |
| AccountsTries.FieldsUpgraded | src/accounts_trie.rs:451-476 | byte for byte, a field is after the upgrade what it was, except that explicit zeros and empty code are gone |
| AccountsTries.ContainsNonceKept | src/accounts_trie.rs:454-458 | `contains_nonce` is kept if and only if the stored nonce is no explicit zero |
| AccountsTries.ContainsBalanceKept | src/accounts_trie.rs:459-463 | `contains_balance` is kept if and only if the stored balance is no explicit zero |
| AccountsTries.ExplicitZeroIsLost | src/accounts_trie.rs:454-458 | an account for which `contains_nonce` changes |
| AccountsTries.Upgrade | src/accounts_trie.rs:406-480 | the upgrade succeeds on a readable trie, keeps the accounts and lists exactly the stored storage hashes; the trie is the emptied one, started again and filled; fails on a trie that does not load or has a malformed entry |
| StorageTries.StorageKeyInjective | src/storage_trie.rs:172-186 | storage keys are injective in both versions |
| StorageTries.StorageLayout | src/storage_trie.rs:167-199 | storage keys in both versions, in bytes, and what is left of a key whatever its visibility |
| StorageTries.StorageKey | src/storage_trie.rs:172-199 | dropping the visibility byte undoes making a key, except for the empty version 2 key, which is refused |
| StorageTries.SetReads | src/storage_trie.rs:73-103 | setting by storage key acts like the update of the plain map and keeps the Public byte |
| StorageTries.RemoveOne | src/storage_trie.rs:79-82 | removing by storage key removes one key of the plain map and keeps the Public byte |
| StorageTries.StorageData | src/storage_trie.rs:96-103 | a batch of pairs becomes trie pairs of the same meaning, none merged and none added |
| StorageTries.DropOne | src/storage_trie.rs:150-156 | dropping the visibility byte merges no two entries |
| StorageTries.Rekey | src/storage_trie.rs:149-156 | for any order, re-encoding loses and merges nothing: every storage key reads the same; whatever the first bytes, each key lives on without its own, with the value of an entry it came from |
| StorageTries.Upgrade | src/storage_trie.rs:141-164 | a readable version 1 storage trie, empty or not, upgrades and reads the same; fails on a trie that does not load or has the empty key |
| Worlds.NewIsRegular | src/world_state.rs:58-65 | a new state is readable, its cached tries are entered and its overlays tidy |
| Worlds.OpenIsRegular | src/world_state.rs:70-77 | so is an opened one whose tries are in the store |
| Worlds.SetFieldKeeps | src/accounts_trie.rs:312-343 | setting a field changes that field (an empty code is kept or removed as the library does) and no storage, and keeps the state readable, entered and tidy |
| Worlds.VisitKeeps | src/world_state.rs:100-127 | visiting a storage trie changes no meaning, keeps every cached trie entered, takes no change back, and caches the trie |
| Worlds.VisitMakesNew | src/world_state.rs:114-122 | a missing trie is made empty and its root entered |
| Worlds.VisitCases | src/world_state.rs:100-127 | a cached trie stays, a stored hash is opened without changes, and without one a new trie is made and its root entered; without accounts it fails |
| Worlds.SetFieldFails | src/accounts_trie.rs:312-343 | setting a field fails exactly if the accounts trie does not load |
| Worlds.ChangeFails | src/storage_trie.rs:73-103 | changing the storage of an address fails if its trie cannot be had or does not load |
| Worlds.SetStorageKeeps | src/storage_trie.rs:73-103 | setting keys, one or a batch, changes them for one address and nothing else |
| Worlds.RemoveStorageKeeps | src/storage_trie.rs:79-82 | removing a storage key removes it for one address and nothing else |
| Worlds.EmptyStorageKeeps | src/storage_trie.rs:85-93 | emptying a trie empties the storage of one address and nothing else |
| Closing.MergeOne | src/world_state.rs:173-186 | one more change set in the merge: the merge has each of its changes and no others than before |
| Closing.MergeAt | src/world_state.rs:179-186 | where two change sets insert a key the one merged later wins |
| Closing.MergedOneMore | src/world_state.rs:173-181 | visiting one more cached trie extends the order in which the changes are merged |
| Closing.MergedIsDisjoint | src/world_state.rs:169-192 | if no key is changed by two tries, merged inserts and deletes are disjoint |
| Closing.MergedIsUnique | src/world_state.rs:169-192 | if no key is changed by two tries, the merge does not depend on the order in which the cache is iterated |
| Closing.MergeWritesInTurn | src/world_state.rs:178-186 | writing the merge of any order of the tries equals writing their change sets one after the other in that order, and it is the merge of exactly those tries |
| Closing.OpenedMeansSame | src/world_state.rs:70-77 | a store with every needed node, opened at the root of the accounts, has the same accounts and storage, version 1 or 2 |
| Closing.WrittenHolds | src/world_state.rs:169-192 | for either order of writing, the needed nodes are in the written store if and only if the changes spare each of them |
| Closing.ApartIsKept | src/world_state.rs:169-192 | if no trie changes a key of a node that another needs, the needed nodes are kept in either order, whatever the versions |
| Closing.RegularIsApart | src/world_state.rs:169-192 | so it is in states that were made or opened, of version 2 and of version 1 with separate node keys |
| Closing.CloseWritesInTurn | src/world_state.rs:169-192 | the changes of a close, written in either order, give the store that writing the changes of the tries one trie after the other gives, for any order of the tries |
| Closing.RebuiltIsKept | src/world_state.rs:169-218 | in an upgraded state writing deletes first keeps every needed node; writing inserts first does so if and only if no needed node has a deleted key |
| Closing.InsertsFirstLosesNode | src/world_state.rs:169-218 | a delete of the old version that meets an insert of the new one: inserts first loses the node, deletes first keeps it |
| WorldStates.WorldState.New | src/world_state.rs:58-65 | a new state is regular and empty |
| WorldStates.WorldState.Open | src/world_state.rs:70-77 | an opened state is regular if its tries are in the store |
| WorldStates.WorldState.StorageTrieMut | src/world_state.rs:100-127 | caches and returns the trie of an address without changing any meaning; fails only if the accounts trie does not load, and then changes nothing |
| WorldStates.WorldState.SetStorage | src/storage_trie.rs:73-76 | one storage key of one address changes; the new state is exactly the visited one with that trie changed, and a failure leaves the visited or the old state |
| WorldStates.WorldState.SetStorageBatch | src/storage_trie.rs:96-103 | `batch_set`: the keys of the batch change, for one address; the new state is exactly the visited one with that trie changed, and a failure leaves the visited or the old state |
| WorldStates.WorldState.RemoveStorage | src/storage_trie.rs:79-82 | one storage key of one address goes; the new state is exactly the visited one with that trie changed, and a failure leaves the visited or the old state |
| WorldStates.WorldState.RemoveTrie | src/storage_trie.rs:85-93 | the storage of one address becomes empty; the new state is exactly the visited one with that trie changed, and a failure leaves the visited or the old state |
| WorldStates.WorldState.SetAccountField | src/accounts_trie.rs:312-343 | one field of one account changes, no storage; fails, changing nothing, exactly if the accounts trie does not load |
| WorldStates.WorldState.SetField | src/accounts_trie.rs:312-343 | the new state is the old one with that field set in the accounts trie, or an error and the old state |
| WorldStates.WorldState.AllAccounts | src/accounts_trie.rs:225-269 | on a readable state `all` gives exactly the addresses with a field, each with the record of its point reads; fails if the trie does not load or an entry is malformed |
| WorldStates.WorldState.SetStorageHash | src/accounts_trie.rs:381-389 | enters a root for an address, changing nothing if the trie does not load |
| WorldStates.WorldState.CloseStorages | src/world_state.rs:173-181 | for any order of the cache: all roots entered and all changes merged; fails, changing nothing, if there are cached tries and the accounts trie does not load |
| WorldStates.WorldState.Close | src/world_state.rs:169-192 | for both versions: the changes of all tries and the root of the accounts with every cached root entered; written in either order and opened they mean the same if no trie changes a node that another needs, which holds for made and opened states; upgraded states mean the same with deletes first; the cache keeps its changes, the accounts trie gives its up; the changes are merged in the order of some iteration, those of the accounts trie last |
| WorldStates.EnterOneRoot | src/world_state.rs:174-177 | entering the root of one more cached trie enters that hash and changes no other field |
| WorldStates.ClosedReopens | src/world_state.rs:169-192 | what each kind of state keeps when it is closed, written and opened, by order of writing |
| WorldStates.UpgradedInsertsFirst | src/world_state.rs:169-218 | an upgraded state written inserts first keeps its nodes if and only if none of them has a deleted key, and then means the same; it suffices that no key is both inserted and deleted |
| UpgradeWitness.InsertsFirstLoses | src/world_state.rs:169-218 | an upgrade that inserts first spoils: one code and one storage entry set on an empty state, upgraded and closed; deletes first opens again, inserts first does not, the storage trie no longer loading |
| WorldStates.WorldState.Upgrade | src/world_state.rs:198-218 | succeeds on a readable state and keeps all meaning, unclosed storage changes included; caches a trie for exactly the entered addresses, inserts under version 2 keys only, and deletes or overwrites every old node; fails if the accounts trie does not load or has a malformed entry |
| WorldStates.WorldState.UpgradeStorages | src/world_state.rs:200-212 | for any order: the trie of every listed hash is upgraded, the cached one if there is one |
| WorldStates.UpgradeKeepsMeaning | src/world_state.rs:198-218 | because every cached trie is entered, iterating over the entered hashes upgrades all storage there is |
| WorldStates.UpgradeRetires | src/world_state.rs:198-218 | every node that any trie needed before the upgrade is deleted or overwritten by the trie upgraded from it |
| WorldStates.NoOldNodeIsLeft | src/world_state.rs:169-218 | once an upgraded state is closed and written, in whichever order, no version 1 node is left in the store, other than under a key that the state itself wrote |
| WorldStates.Reopen | src/world_state.rs:169-192 | close, write, open: what is read is unchanged, for made and opened states of both versions in either order, for upgraded ones with deletes first or with no key both inserted and deleted, and wherever no trie changes a node of another |
| Sessions.Execute | src/world_state.rs:52-193 | any run of updates, batches, visits and reopenings on a readable state of either version, new, opened or upgraded, changes what is read exactly as it changes a plain map; each reopening is judged on the state it meets |
| Sessions.Session | src/world_state.rs:52-193 | the same from an empty state of either version |
| Sessions.UpgradeReads | src/world_state.rs:198-218 | the reads after an upgrade, in terms of the plain map |
| Sessions.UpgradeMeans | src/world_state.rs:198-218 | the stored fields and storage after an upgrade are the plain map without explicit zeros and empty code |
| Sessions.SessionThenUpgrade | src/world_state.rs:198-218 | a version 1 session, reopenings included, and then an upgrade: every point read and storage key answers what the session left |
| Sessions.Life | tests/integration_test.rs:95-175 | a version 1 session, an upgrade, and a version 2 session, all with closes and reopenings, the first one after the upgrade with deletes first and all others in either order: what is read at the end is what the commands make of a plain map |

## Left out

- Trie nodes, hashing, proofs and proof levels (src/mpt.rs): they belong to libraries; see `LawfulFormat` above. The trie's own order of node writes and its errors other than "does not load" are not told apart.
- KeyInstrumentedDB's own `upgrade` (src/db.rs:133-143): modelled where it matters, in `Tries.Deinit`, by keeping the overlay.
- That node keys are separate in version 1 (`Tries.Separate`): assumed for closing version 1 states, because it rests on the hash.
- That an upgraded state written inserts first never loses a node: it does if keys meet; it is stated when it does not.
- Tries as fields: a storage trie is a value that the world state owns and replaces, so a mutable reference handed out by `storage_trie_mut` is modelled by operations of the world state on that address.
- `storage_trie`: it does to the state what `storage_trie_mut` does, and returns the trie for reading.
- The setters of nonce, balance, code and cbi version are one operation by field and encoded value.
- Worlds.EmptyStorageKeeps: does not model errors in the middle of an iteration, because the trie model either loads or does not.
- PoolRuns.Execute: requires that no accepted push has a stake list whose length wraps around 32 bits and fits, because after such a push the bytes are those of no set (`Pools.ValidatorPool.Push` says so exactly) and nothing is claimed of what follows.
- PoolRuns.ExecuteFresh: the same.
- PoolRuns.RunAndRead: the same.
- NetworkAccount.RunOnSet: the same.
- Edits made through a `PoolDict` that a validator set handed out, other than those of `push` and `clear`, as steps of a run on the set.
- `push` and `reset` on a heap through its map, which do not restore heap order: claimed only for `reset` from values in heap order (`HeapRuns.CopyHeap`, `PoolRuns.PushedStakesAreHeap`).
- A store behind the network account that is a world state: its `delete` writes an empty value, which removes the key if the trie library does so (`keepsEmpty` false in `TrieFormat`); the model's store removes the key.
- Versions as type parameters, Rust lifetimes and borrows, constants for the sizes of validator sets and stake lists: a value, nothing, and parameters.
