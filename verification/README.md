# Verified models of the Go toolbox

These Dafny modules model seven components of the toolbox and prove what they
promise, for all inputs, all runs and all interleavings. `dafny verify
dfyconfig.toml` checks everything.

**Consistent-hash rings** (`RingSpec`, `Ketama`). The ring is a growable array
that additions append to and sort, removals compact in place and lookups bisect.
The murmur hash of "name:spot" is an uninterpreted function cut to 64 or 32 bits,
and the sort is known only to give a sorted permutation. Routing by the nearest
clockwise virtual node, minimal disruption and independence of history are proved
with the exact hypothesis about ties between names.

**Camel case** (`Replacer`, `Initialisms`, `Casing`, `TwinTables`, `SecondTrip`,
`WordLists`, `CamelCase`, `LowerCamels`, `CamelRoundTrip`). A printer and a parser with two
string-rewriting tables in between, on ASCII. The round trips that the tests state are
false in general; they are proved to hold exactly where they do, with the real table.

**Concurrent maps** (`Fnv`, `ShardSpec`, `ShardedMap`, `ConcurrentMaps`,
`ShardCounts`, `LockSections`, `KeyOps`, `Calls`, `Snapshots`, `CallRuns`, `RwLocks`,
`Schedules`, `FanIn`, `KeysChannel`). For one caller the 32 shards are one map. The string
map can be made with another number of shards, but everything that uses it counts on 32.
With fewer, some keys are out of range, `Count`, `IsEmpty` and `Keys` panic and the iterator
waits for ever; with more, the iterator and `Keys` panic. So 32 shards are an invariant of
the class. For many clients, every interleaving of instructions under read-write locks
refines atomic lock sections, the one-key updates and the calls of several sections are
proved correct on these, and the results are carried back to instructions. The iterator's
channels and `Keys` are modelled with locks on which readers queue behind writers, and are
proved correct and live.

**Stopper** (`Stopper`). Double-checked locking with channel closes, by any number
of threads. `DoStop` returns only from an inner function at its second check, so two
callers that both pass the first check close one channel twice; the exact condition
and the run are proved.

**Bitmap and Bloom filters** (`Bits`, `Bitmap`, `Bloom`, `BloomSteps`). Bytes
changed in place refine a set of indexes, and the filters are exact about the
positions of what was added, also when calls interleave bit by bit. `Bitmap.MSet`
takes its mutex twice and `AddMany` goes through it; both are modelled as written.

**Next periods** (`Grids`, `Calendar`, `NextPeriod`). Days, weeks and months of the
proleptic Gregorian calendar in UTC, in nanoseconds since 0001-01-01.

**AES-CBC** (`Cbc`). The chaining of section 6.2 of NIST SP 800-38A over any block
permutation, with the padding of section 6.3 of RFC 5652, errors and panics as
results.

`MachineInts` holds the fixed-width integers, `Bitwise` exclusive or on them, and
`Wrappers` the option type.

Where code and its comments or tests disagree, the models follow the code: the fuzz
test of the camel case package (camelcase/camel_test.go:137-145) states a law that
the code does not have, the evident intent of `MSet` and `AddMany` is not met, and
the comment on `snapshot` (concurrentmap/i64map/map.go:274-277) speaks of a
snapshot of the map, which the result of `Items` always is with up to one write section
during the call and need not be with two (module `Snapshots`).

## Model

| member | source | states |
|---|---|---|
| `Ketama.HashRing.constructor` | consistenthash/int64_ketama.go:31-44 | a ring starts empty; a spot count that is not positive becomes 160 |
| `Ketama.HashRing.AddNode` | consistenthash/int64_ketama.go:46-70 | the array becomes some sorted permutation of the old virtual nodes and all spots of the name; for each i below the spot count the hash of "name:i" is on it under that name; sorted and below the modulus again |
| `Ketama.HashRing.Append` | consistenthash/int64_ketama.go:68-68 | the slice grows by exactly the new virtual nodes, in place exactly if the backing array has room for them and in a copy otherwise |
| `Ketama.SortPrefix` | consistenthash/ketama.go:25-27 | sorting in place through comparisons and swaps leaves a sorted permutation, of which nothing more is used |
| `Ketama.Compact` | consistenthash/int64_ketama.go:76-82 | the filter that writes into the slice it reads equals the order-preserving functional filter |
| `Ketama.HashRing.RemoveNode` | consistenthash/int64_ketama.go:72-83 | exactly the virtual nodes of other names stay, in order, in the same array |
| `Ketama.HashRing.Search` | consistenthash/int64_ketama.go:91-93 | the bisection finds the first virtual node at or after the target, or the length |
| `Ketama.HashRing.GetNode` | consistenthash/int64_ketama.go:85-103 | not found exactly on the empty ring; otherwise the name of a virtual node at least clockwise distance from the key, over the whole ring, through bisection and wrap to index 0 |
| `Ketama.NewInt64Ring` | consistenthash/int64_ketama.go:31-44 | the int64 ring is the 64-bit ring whose target is the key converted to uint64 |
| `Ketama.NewRing` | consistenthash/ketama.go:36-49 | the string ring is the 32-bit ring whose target is the murmur hash of the key |
| `Ketama.Int64Distance` | consistenthash/int64_ketama.go:91-93 | on the int64 ring clockwise distance is (hash - key) modulo 2^64, for negative keys too |
| `RingSpec.OwnerIsNearest` | consistenthash/ketama.go:91-116 | the owner is the name of a virtual node minimising (hash - target) modulo the ring size |
| `RingSpec.RemoveCommutesWithClockwise` | consistenthash/ketama.go:78-89 | reading the ring clockwise from any key and removing a node commute |
| `RingSpec.RemoveDisruption` | consistenthash/int64_ketama.go:72-103 | ties or not: a key keeps its owner unless that owner was removed, then it goes to the next clockwise virtual node of another name; the removed name never comes back |
| `RingSpec.AddDisruption` | consistenthash/int64_ketama.go:46-70 | adding a name moves keys only to that name, for every sorted permutation the sort may give, if and only if every virtual node of another name is called what its own hash is routed to |
| `RingSpec.RunShape` | consistenthash/int64_ketama.go:53-82 | after any run the ring is sorted and holds each spot of each name exactly as often as the name was added since its last removal |
| `RingSpec.RunContents` | consistenthash/int64_ketama.go:46-83 | after any run the virtual nodes present are exactly the spots of the members |
| `RingSpec.RunHashes` | consistenthash/int64_ketama.go:46-83 | after any run the hashes under a name are, with multiplicities, the cut hashes of its strings "name:i", once for each time it was added since its last removal |
| `RingSpec.RoutesToNearestString` | consistenthash/int64_ketama.go:46-102 | after any run a key is routed to a member with a string "name:i" whose cut hash comes first clockwise among all strings of all members |
| `RingSpec.StringRoutesHome` | consistenthash/int64_ketama.go:46-102 | a key that hashes like "name:i" of a member is routed to it, if no strings of two members collide |
| `RingSpec.HistoryIndependence` | consistenthash/int64_ketama.go:46-103 | all pairs of runs that end with these members route every key alike if and only if no spots of different members share a hash |
| `RingSpec.NoTiesAreSafe` | consistenthash/int64_ketama.go:46-70 | no ties across names, so every addition moves keys only to the new node |
| `RingSpec.AddThenRemove` | consistenthash/int64_ketama.go:46-83 | adding a node that was not there and removing it restores the routing of every key, whatever the sort does with ties, if and only if no two names tie |
| `CamelCase.BuildReplacers` | camelcase/camel.go:26-41 | the loop builds the two tables, each the other turned round |
| `CamelCase.ToUpperCamel` | camelcase/camel.go:44-52 | the loops over the pieces followed by the replacer compute the camel case of every string |
| `CamelCase.ToLowerCamel` | camelcase/camel.go:55-67 | the same with the first character overwritten; needs a character that is no separator, since index 0 of an empty result is read |
| `LowerCamels.FirstWordLower` | camelcase/camel.go:55-67 | for every input but one of separators only: the first word comes out in lower case, whatever the table says, and the rest as upper camel case writes it alone |
| `LowerCamels.LowerCamelOfWords` | camelcase/camel.go:55-67 | for words over [a-z]: the first is left as it is and the others are put in upper camel case |
| `CamelCase.ToUnderScore` | camelcase/camel.go:92-119 | the replacer followed by the loop that inserts underscores |
| `Casing.PlainUpperCamel` | camelcase/camel.go:69-89 | splitting at "_" and at "-" and capitalising piece by piece equals one left-to-right scan with a flag |
| `Casing.Divide` | camelcase/camel.go:99-118 | the loop puts an underscore before a capital or digit exactly where the character before is neither |
| `Casing.ScanEmpty` | camelcase/camel.go:60-62 | the result is empty exactly for inputs of separators only |
| `Replacer.Table.NextStart` | camelcase/camel.go:39-40 | the replacer reads left to right without overlaps: behind each token the next one starts |
| `Replacer.Table.TokenAt` | camelcase/camel.go:39-40 | what the replacer writes at each position: the replacement of the first old string that stands at the start of its token |
| `Initialisms.Prefixes` | camelcase/camel.go:9-15 | the only entry of the real table whose camel form begins another is UI, with UID before it |
| `CamelRoundTrip.RoundTrip` | camelcase/camel.go:44-119 | for every string: to camel case and back is the identity if and only if the string is separable (each underscore stands between words and is written again) and no word "ui" precedes a word in d |
| `CamelRoundTrip.WordsRoundTrip` | camelcase/camel.go:44-119 | for words over [a-z] joined by underscores: the round trip holds if and only if every word but the last has two letters or more and no "ui" precedes a word in d |
| `CamelRoundTrip.FuzzLaw` | camelcase/camel_test.go:137-145 | camel, underscore, camel equals camel if and only if folding leaves no capital behind a capital or digit and passes over no place where the text goes on like a camel form |
| `CamelRoundTrip.FuzzLawOnInput` | camelcase/camel_test.go:137-145 | for every string whose plain camel case puts no capital behind a capital or digit: the law holds if and only if that does not read "UiDns" |
| `CamelRoundTrip.FuzzLawOnWords` | camelcase/camel_test.go:137-145 | for words over [a-z], all but the last of two letters or more: the law holds if and only if no "ui" stands directly before a word that begins with "dns" |
| `CamelRoundTrip.NotThereAndBack` | camelcase/camel.go:44-119 | a_b and ui_dns do not come back |
| `CamelRoundTrip.FuzzFailsOnCapitals` | camelcase/camel_test.go:137-145 | the law of the fuzz test is false for a_b |
| `CamelRoundTrip.FuzzFailsOnLeftover` | camelcase/camel_test.go:137-145 | and, for a different reason, for x_sshttp: "XSSHttp" is read as XSS and Http |
| `CamelRoundTrip.LettersKept` | camelcase/camel_test.go:148-152 | camel case changes only case and separators; lower camel case never begins with a capital |
| `CamelRoundTrip.AlnumExact` | camelcase/camel_test.go:148-152 | the result has only letters and digits exactly if the input has besides them only separators |
| `TwinTables.Twins.RecasedFixes` | camelcase/camel.go:39-40 | for any table with the listed facts: if recasing the twice replaced text gives the text, the replacers undid each other |
| `TwinTables.Twins.ClearRoundTrip` | camelcase/camel.go:39-40 | the second replacer undoes the first on text without neighbouring capitals and without "UiD" |
| `TwinTables.Twins.UiBeforeD` | camelcase/camel.go:9-15 | wherever "UiD" stands the two replacers do not undo each other |
| `TwinTables.Twins.SecondRaising` | camelcase/camel.go:39-40 | replacing, replacing back, recasing and replacing again gives the first result exactly under the two conditions |
| `SecondTrip.InStep` | camelcase/camel.go:39-40 | folding starts a token wherever raising did, but on the D of "UiD", until a "UiDns" has begun |
| `SecondTrip.SecondTripExact` | camelcase/camel.go:39-40 | for text without a capital behind a capital or digit: raising, folding, recasing and raising again gives the raised text exactly if "UiDns" is not in it |
| `ShardedMap.ConcurrentMap.constructor` | concurrentmap/strmap/map.go:111-117 | a map of 32 distinct empty shards, with every key in its own shard |
| `ShardedMap.ConcurrentMap.Answers` | concurrentmap/strmap/map.go:127-129 | the shard that the program picks for a key holds the key exactly if the one flat map does, with the same value |
| `ShardedMap.ConcurrentMap.Get` | concurrentmap/i64map/map.go:149-157 | answers what the one flat map answers |
| `ShardedMap.ConcurrentMap.Has` | concurrentmap/i64map/map.go:172-180 | membership in the flat map |
| `ShardedMap.ConcurrentMap.Set` | concurrentmap/i64map/map.go:101-109 | updates the flat map at one key and returns what was there |
| `ShardedMap.ConcurrentMap.Upsert` | concurrentmap/i64map/map.go:125-133 | stores and returns what the callback makes of presence, old and new value |
| `ShardedMap.ConcurrentMap.SetIfAbsent` | concurrentmap/i64map/map.go:136-146 | writes only an absent key and says whether it did |
| `ShardedMap.ConcurrentMap.GetOrSet` | concurrentmap/strmap/map.go:86-96 | returns the present value or stores and returns the given one |
| `ShardedMap.ConcurrentMap.Remove` | concurrentmap/i64map/map.go:183-189 | removes one key of the flat map |
| `ShardedMap.ConcurrentMap.RemoveCb` | concurrentmap/i64map/map.go:198-209 | removes the key exactly if the callback says so and returns what it said |
| `ShardedMap.ConcurrentMap.Pop` | concurrentmap/i64map/map.go:212-220 | removes the key and returns what was there |
| `ShardedMap.ConcurrentMap.Count` | concurrentmap/i64map/map.go:160-169 | the sum of the shard sizes is the size of the flat map |
| `ShardedMap.ConcurrentMap.IsEmpty` | concurrentmap/i64map/map.go:223-225 | true exactly for the empty map |
| `ShardedMap.ConcurrentMap.Clear` | concurrentmap/i64map/map.go:229-238 | leaves the empty map |
| `ShardedMap.ConcurrentMap.Resize` | concurrentmap/i64map/map.go:371-387 | copying every shard into another map changes nothing, and a negative capacity does nothing |
| `ShardedMap.ConcurrentMap.GroupKeys` | concurrentmap/i64map/map.go:40-45 | each key is listed in the group of its shard and nowhere else |
| `ShardedMap.ConcurrentMap.MGet` | concurrentmap/i64map/map.go:37-65 | the restriction of the flat map to the given keys, shard by shard |
| `ShardedMap.ConcurrentMap.MGetEach` | concurrentmap/strmap/map.go:52-70 | the same with one goroutine a key, in any order |
| `ShardedMap.ConcurrentMap.GroupData` | concurrentmap/i64map/map.go:72-80 | the data divided into the parts that belong to each shard |
| `ShardedMap.ConcurrentMap.MSet` | concurrentmap/i64map/map.go:69-98 | map override, whatever the order of the shard goroutines |
| `ShardedMap.ConcurrentMap.MSetEach` | concurrentmap/strmap/map.go:40-50 | map override, whatever the order of the key goroutines |
| `ShardSpec.FlatAt` | concurrentmap/i64map/map.go:112-114 | if every key lives only in its own shard, the union of the shards answers each key as its shard does |
| `ShardSpec.SizeOfFlat` | concurrentmap/i64map/map.go:160-169 | the sizes of well placed shards add up to the size of their union |
| `Fnv.Fnv32Key` | concurrentmap/i64map/map.go:348-367 | both loops together hash the eight bytes of the key, highest first, negative keys included |
| `Fnv.Fnv32String` | concurrentmap/strmap/map.go:98-109 | the loop hashes the bytes of the string |
| `Fnv.HashRecurrence` | concurrentmap/strmap/map.go:98-109 | the published recurrence of FNV-1a with its constants: 2166136261 for no bytes, and one more byte flips its bits in the low byte before the product with 16777619 modulo 2^32 |
| `Fnv.KeyBytesSpell` | concurrentmap/i64map/map.go:351-360 | the eight bytes of a key, highest first, spell its 64-bit pattern, negative keys included |
| `Fnv.RoundInjective` | concurrentmap/i64map/map.go:361-364 | one round tells hashes apart for one byte, and bytes apart for one hash |
| `Fnv.OneByteApart` | concurrentmap/strmap/map.go:98-109 | two byte strings that differ in exactly one place never have equal hashes |
| `Fnv.OneKeyByteApart` | concurrentmap/i64map/map.go:348-367 | two keys that differ in exactly one byte never have equal hashes |
| `Fnv.ShardSpread` | concurrentmap/i64map/map.go:112-114 | any 32 consecutive keys that agree in their top 56 bits land in the 32 shards exactly once each |
| `ConcurrentMaps.NewInt64Map` | concurrentmap/i64map/map.go:24-33 | the int64 map places keys by the FNV-1a hash of their eight bytes |
| `ConcurrentMaps.NewStringMap` | concurrentmap/strmap/map.go:111-117 | the string map places keys by the FNV-1a hash of their bytes |
| `ConcurrentMaps.ConsecutiveKeysSpread` | concurrentmap/i64map/map.go:112-114 | in the map itself: such a run of 32 keys shares no shard object and leaves none idle |
| `LockSections.StepRefines` | concurrentmap/i64map/map.go:101-109 | each instruction between lock and unlock keeps the locking invariant and is either invisible or one whole section on committed shards |
| `LockSections.RunRefines` | concurrentmap/i64map/map.go:101-220 | every interleaving of any number of clients is a run of atomic lock sections |
| `LockSections.MutualExclusion` | concurrentmap/i64map/map.go:101-109 | a writer of a shard excludes every other reader and writer of it |
| `LockSections.InsideGoesOn` | concurrentmap/i64map/map.go:101-109 | a client inside a section can always take its next step |
| `LockSections.EntersOrWaits` | concurrentmap/i64map/map.go:101-220 | a client outside can enter a shard, or some client is inside whose lock excludes it |
| `LockSections.AllOrNone` | concurrentmap/i64map/map.go:86-94 | a reader's one section on a shard sees all of an MSet's keys for that shard or none |
| `LockSections.SwapStands` | concurrentmap/i64map/map.go:229-241 | the new map that Clear puts into a shard is there from its unlock to the next write on the shard |
| `KeyOps.BodyHasEffect` | concurrentmap/i64map/map.go:101-220 | what Set, Upsert, SetIfAbsent, GetOrSet, Remove, RemoveCb and Pop do inside the lock has the effect of the operation on its key alone |
| `KeyOps.OneKeyAtUnlock` | concurrentmap/i64map/map.go:101-220 | in every interleaving each of them answers from, and changes, what the one flat map holds for its key at its unlock, and changes no other key |
| `KeyOps.OneSetsIt` | concurrentmap/i64map/map.go:136-146 | of any number of SetIfAbsent calls on an absent key, with nothing else changing the key, exactly the first to unlock is told that it set it |
| `KeyOps.OneTakesIt` | concurrentmap/i64map/map.go:198-220 | of any number of Pops and agreeing RemoveCbs on a key that holds a value, with nothing else changing the key, exactly the first to unlock is told that it got it |
| `KeyOps.NextIsTold` | concurrentmap/i64map/map.go:101-220 | what a Set or a Pop is told that comes next after any one-key update of its key |
| `KeyOps.OneValueForAll` | concurrentmap/strmap/map.go:86-96 | while nothing but GetOrSet changes a key all callers are told one value: what was there, or what the first brought |
| `KeyOps.NoUpdateLost` | concurrentmap/i64map/map.go:125-133 | of any number of interleaved Upserts none is lost: the key ends up with all callbacks done, one after the other |
| `KeyOps.UpsertIsTold` | concurrentmap/i64map/map.go:125-133 | each callback is given what the one before it made, and its result is what its caller is told |
| `Calls.GatherAnswers` | concurrentmap/i64map/map.go:37-65 | in every interleaving each per-key answer of a call that reads shard after shard was true at some moment between call and return |
| `Calls.ScatterLands` | concurrentmap/i64map/map.go:69-98 | each value of a finished call that writes in parts was the truth at some moment between call and return |
| `Calls.ReturnsDone` | concurrentmap/i64map/map.go:37-98 | a call returns only when whatever it was asked has been answered truly and whatever it was given has been written |
| `Calls.MGetAnswers` | concurrentmap/i64map/map.go:37-65 | the same for MGet of both maps, absence included |
| `Calls.ItemsAnswers` | concurrentmap/i64map/map.go:293-302 | the same for every key of Items |
| `Snapshots.QuietItems` | concurrentmap/i64map/map.go:293-302 | if nobody writes from before the first to after the last section of Items, the result is the flat map of that time |
| `Snapshots.OneChangeItems` | concurrentmap/i64map/map.go:293-302 | if the map changes at most once during a call of Items, in every interleaving the result is what the map held at some moment of the call |
| `Snapshots.ItemsIsNoSnapshot` | concurrentmap/i64map/map.go:274-302 | a run with two writes in which Items returns what the map held at no moment |
| `Snapshots.SnapshotExact` | concurrentmap/i64map/map.go:274-302 | the threshold: Items gives a snapshot in all interleavings with at most so many write sections during the call if and only if that is at most one |
| `CallRuns.Account.IsTrace` | concurrentmap/i64map/map.go:101-302 | every interleaving of instructions under the locks, by threads that belong to clients with calls under way, is a trace of whole sections; so the results on calls hold of instructions |
| `CallRuns.Account.MGetInRun` | concurrentmap/i64map/map.go:37-65 | in every interleaving of instructions MGet answers each key with what the flat map held for it between call and return |
| `CallRuns.Account.ItemsInRun` | concurrentmap/i64map/map.go:293-302 | and so does Items |
| `CallRuns.Account.MSetInRun` | concurrentmap/i64map/map.go:69-98 | and each value of a finished MSet was there between call and return |
| `CallRuns.Account.ItemsSnapshotInRun` | concurrentmap/i64map/map.go:293-302 | with at most one write section during the call, Items returns one moment of the call in every interleaving of instructions |
| `FanIn.StepKeeps` | concurrentmap/i64map/map.go:247-290 | every step of the iterator, of its goroutines and of other clients keeps the invariant: nothing taken under a lock is lost or doubled on its way, and capacities cover what is to come |
| `FanIn.SendsNeverWait` | concurrentmap/i64map/map.go:259-290 | a send into a shard channel and a send into the output always find room, whether or not the caller reads |
| `FanIn.RunIsOrderly` | concurrentmap/i64map/map.go:274-290 | in every run: the output is made only when every shard has been locked; the int64 map locks one shard at a time, in order, and makes it only when all locks are free again |
| `FanIn.Progress` | concurrentmap/strmap/map.go:247-298 | until the output is closed some goroutine of the iterator can act, even if the caller abandons the channel, or one is queued for a lock and a client ahead of it can go on |
| `FanIn.StepWorks` | concurrentmap/strmap/map.go:247-298 | each step of the iterator lowers a measure that nobody else raises |
| `FanIn.StepsEnd` | concurrentmap/strmap/map.go:247-298 | in no endless schedule do the goroutines of the iterator take steps for ever |
| `FanIn.OutputCloses` | concurrentmap/strmap/map.go:247-298 | under every fair schedule the output is closed, whatever other clients do and whether or not the caller reads |
| `FanIn.ClosedOutput` | concurrentmap/i64map/map.go:259-272 | when the output is closed all locks are free and what was read with what is left is exactly the multiset of the snapshots |
| `FanIn.RunConserves` | concurrentmap/i64map/map.go:247-290 | the same for every run from the start |
| `FanIn.ItemsIsFlat` | concurrentmap/i64map/map.go:293-302 | in every run the map that Items builds from the channel is the flat union of what the shards held when they were locked |
| `KeysChannel.StepKeeps` | concurrentmap/i64map/map.go:305-333 | every step of Keys, from the first shard it counts to its return, of its senders and of other clients keeps the invariant |
| `KeysChannel.Progress` | concurrentmap/i64map/map.go:305-333 | as long as Keys has not returned some step of its own is possible, or its count or a sender is queued for a lock and a client ahead of it can go on, though senders may block while holding read locks |
| `KeysChannel.StepWorks` | concurrentmap/strmap/map.go:313-341 | each own step lowers a measure that nobody else raises |
| `KeysChannel.StepsEnd` | concurrentmap/strmap/map.go:313-341 | in no endless schedule does Keys take steps for ever |
| `KeysChannel.KeysReturns` | concurrentmap/strmap/map.go:313-341 | under every fair schedule Keys returns, whatever other clients do; its count under 32 read locks is part of the run |
| `KeysChannel.KeysResult` | concurrentmap/i64map/map.go:305-333 | the result has no duplicates and holds exactly the keys each shard held when it was locked |
| `KeysChannel.InOrder` | concurrentmap/i64map/map.go:305-333 | in every run the keys come out in the order in which they were sent, and the buffer never holds more than the count |
| `KeysChannel.SendsFindRoom` | concurrentmap/i64map/map.go:305-333 | if nobody else changes which keys there are, the count is their number and no sender ever waits for room while it holds a lock |
| `RwLocks.AheadFalls` | concurrentmap/i64map/map.go:307-323 | while a reader is queued behind a writer nobody new gets ahead of it, and each client that goes on leaves fewer ahead |
| `ShardCounts.InRangeExact` | concurrentmap/strmap/map.go:27-38 | every key has its shard if and only if the map was made with at least 32 shards; a key of one byte is out of range otherwise |
| `ShardCounts.FinishesExactly` | concurrentmap/strmap/map.go:173-341 | for a map of n shards, however goroutines are scheduled: the iterator returns if and only if n is 32, panics if more and waits for ever if fewer; Count and IsEmpty panic exactly if n is below 32; Keys, which counts first, returns if n is 32 and panics otherwise |
| `Stopper.StepKeeps` | sync/stopper.go:69-118 | every instruction of every thread keeps flags, locks, channels and counts consistent |
| `Stopper.RunIsSafe` | sync/stopper.go:69-118 | at every moment of every run: trigger and announcement are closed at most once, a flag that is up has its channel closed, a closed stoppedChan means stopping was announced, and with at most one caller past the first check nothing panics |
| `Stopper.ClosesAreEarned` | sync/stopper.go:86-101 | in no run is stoppedChan closed more often than callers of DoStop had their f return or their time run out, each caller counted once |
| `Stopper.CloseIsEarned` | sync/stopper.go:86-101 | whoever closes stoppedChan has had its own f return or its own time run out before, in the same call |
| `Stopper.WaitReturns` | sync/stopper.go:86-138 | WaitStopped returns only after some thread has closed stoppedChan, and that only after its f returned or its time ran out |
| `Stopper.TriggerReturns` | sync/stopper.go:104-118 | a TriggerStop that returns leaves the trigger closed |
| `Stopper.PanicExact` | sync/stopper.go:69-102 | once no DoStop is under way the second close has happened if and only if two callers got past the first check |
| `Stopper.OneAtATimeIsSafe` | sync/stopper.go:69-102 | if DoStop is called only while no other thread is in it, nothing panics in any run, however often it is called |
| `Stopper.TwoStopsPanic` | sync/stopper.go:78-80 | the two-thread run: the return leaves only the inner function, both callers run f and both close stoppedChan |
| `Stopper.GoesOn` | sync/stopper.go:69-138 | no deadlock: a thread in a call can go on, or the holder of the lock it waits for can, except in WaitStopped before the close |
| `Bitmaps.NewBitmap` | bitmap/bitmap.go:16-24 | a negative size panics; otherwise an empty bitmap of that size |
| `Bitmaps.Bitmap.Set` | bitmap/bitmap.go:27-32 | adds exactly its own index, or panics out of range; the padding bits stay zero |
| `Bitmaps.Bitmap.Clear` | bitmap/bitmap.go:43-48 | removes exactly its own index, or panics out of range; the padding bits stay zero |
| `Bitmaps.Bitmap.IsSet` | bitmap/bitmap.go:51-56 | membership, or a panic out of range |
| `Bitmaps.Bitmap.Count` | bitmap/bitmap.go:59-67 | the sum of the byte population counts is the number of indexes in the set |
| `Bitmaps.Bitmap.MSet` | bitmap/bitmap.go:34-40 | as written it never sets an index: it returns for the empty list, panics if the first index is out of range, and otherwise waits for its own mutex forever |
| `Bits.OneIndexChanges` | bitmap/bitmap.go:27-48 | or-ing or and-not-ing one byte adds or removes one index of the whole row |
| `Bits.CountsAddUp` | bitmap/bitmap.go:59-67 | population counts of the bytes add up to the cardinality of the set of indexes |
| `Bloom.CreateHashFunctions` | bloom/bloom.go:59-77 | the loop yields k functions, number i being base i modulo the number of bases times i divided by it plus one, modulo 2^32 |
| `Bloom.NewInt64Bloom` | bloom/int64_bloom.go:17-28 | at most 8 functions, scaled from the high bits, the low bits and their mixture |
| `Bloom.HalvesOfKey` | bloom/int64_bloom.go:64-69 | the first two base functions are the high and the low half of the key |
| `Bloom.MixedBitsOfKey` | bloom/int64_bloom.go:70-72 | bit j of the third says whether the bits j and j + 16 of the key differ |
| `Bloom.BloomFilter.PositionsAre` | bloom/int64_bloom.go:40-59 | the positions of an element are the values of all hash functions modulo the size |
| `Bloom.NewBloom` | bloom/bloom.go:20-30 | at most 8 functions, scaled from FNV-1a and FNV-1 |
| `Bloom.Fnv1Recurrence` | bloom/bloom.go:60-66 | the second base function by the published recurrence of FNV-1 with its constants, the first by that of FNV-1a |
| `Bloom.BloomFilter.Add` | bloom/int64_bloom.go:31-36 | over any run the bits are exactly the positions of what was added |
| `Bloom.BloomFilter.Contains` | bloom/int64_bloom.go:51-59 | yes if and only if every position of the element is a position of something added, and so yes for everything added |
| `Bloom.BloomFilter.LastPositions` | bloom/int64_bloom.go:39-46 | of each element only the position of the last hash function is kept |
| `Bloom.BloomFilter.AddMany` | bloom/int64_bloom.go:39-48 | as written it adds nothing, and for a list that is not empty it never returns |
| `BloomSteps.StepKeeps` | bloom/int64_bloom.go:31-59 | every bit-sized step of any number of Add and Contains calls keeps the invariant |
| `BloomSteps.RunAnswersAreTrue` | bloom/int64_bloom.go:31-59 | in every interleaving: an element whose Add returned before the call is found, a yes is true at the return, a no at the call, and bits come only from additions that have begun |
| `BloomSteps.ContainsExact` | bloom/int64_bloom.go:51-59 | for each call of Contains in each interleaving: a yes is true of the bits at its return, a no of the bits at its call |
| `BloomSteps.AddedIsFound` | bloom/int64_bloom.go:40-59 | what one client has added before another one asks is found, whatever happens in between and meanwhile |
| `NextPeriod.NextTimes` | time/time.go:32-42 | in UTC, for every instant and delay: each of the three returns the least later period start plus delay, and repeating it visits every later one, rising all the time |
| `NextPeriod.NextDaily` | time/time.go:32-36 | the next day starts within 24 hours of 3600 seconds, at a multiple of that |
| `NextPeriod.NextWeekly` | time/time.go:32-42 | the next week within seven times that, at a multiple of that |
| `NextPeriod.NextMonthly` | time/time.go:32-42 | the next month where the month begins that follows the one of the delayed instant |
| `NextPeriod.Months.NextIs` | time/time.go:32-42 | the code returns the delayed start of the period after the one that holds t - delay |
| `NextPeriod.Months.IndexHolds` | time/time.go:44-54 | periods follow each other without gaps and every instant lies in its period |
| `NextPeriod.WeeksStartOnMonday` | time/time.go:48-50 | truncating to seven days since the zero time always gives a Monday, also before the zero time |
| `Grids.RepeatVisitsAll` | time/time.go:32-42 | for any rising starts: repeating the step visits all later starts, each once |
| `Calendar.MonthStartClosed` | time/time.go:52-54 | month starts summed from month lengths agree with counting years and leap years |
| `Cbc.EncryptionExact` | security/aes/aes.go:18-36 | which error comes for which input; and else whole blocks, more than the text and at most one block more: each is the block cipher of the bitwise exclusive or of a block of the padded text and the block before it, the first bytes of the key for the first |
| `Cbc.DecryptionExact` | security/aes/aes.go:38-64 | which inputs are refused or panic; and of all others the padding is stripped, or refused, from the one text that encrypts to them, each block of which is the exclusive or of a decrypted block and the ciphertext block before it |
| `Cbc.EncryptBlocks` | security/aes/aes.go:33-34 | the block loop writes the CBC encryption: block i is the cipher of the bitwise exclusive or of block i of the text and block i-1 of the result |
| `Cbc.DecryptBlocks` | security/aes/aes.go:44-46 | the block loop writes the CBC decryption: block i is the bitwise exclusive or of the decrypted block i and block i-1 of the ciphertext |
| `Bitwise.XorBit` | security/aes/aes.go:33-46 | bit j of an exclusive or is set exactly where bit j of the two words differs |
| `Cbc.UnpadPad` | security/aes/aes.go:50-64 | unpadding undoes padding if and only if the padding length fits a byte |
| `Cbc.DecryptedEncrypted` | security/aes/aes.go:33-34 | CBC decryption undoes CBC encryption, by induction over blocks |
| `Cbc.EncryptedDecrypted` | security/aes/aes.go:44-46 | and the other way round |
| `Cbc.RoundTrip` | security/aes/aes.go:18-64 | every plaintext Encrypt accepts comes back from Decrypt if and only if its padding length fits a byte, as it always does for AES |
| `Cbc.ReverseTrip` | security/aes/aes.go:38-64 | for blocks of at most 255 bytes: a ciphertext that decrypts to a non-empty text is what Encrypt gives for its decryption if and only if its padding is canonical; others are accepted too |

## Left out

- Stopper.RunIsSafe: that stoppedChan is closed at most once is stated only for at most one caller past the first check, since the code does not give it otherwise (see Stopper.PanicExact).
- CamelRoundTrip.FuzzLawOnInput: for strings with a capital behind a capital or digit in their plain camel case the law depends on the whole table, and only CamelRoundTrip.FuzzLaw speaks of them.
- CamelRoundTrip.FuzzLawOnWords: with a one-letter word before the last, only CamelRoundTrip.FuzzLaw and CamelRoundTrip.FuzzLawOnInput speak of the law; whether it holds then depends on the whole table.
- CamelRoundTrip.FuzzLaw: its condition is on the converted string, for all inputs; the conditions on the input are those of the two above.
- CamelCase.ToLowerCamel: requires a character that is no separator, since the code reads index 0 of an empty string otherwise.
- Bitmaps.Bitmap.MSet: stated as the code behaves, which is not what its name promises.
- Bloom.BloomFilter.AddMany: likewise; it exists for the int64 filter only.
- Bloom.NewInt64Bloom: takes a positive size and the count of functions as inputs; their float estimate from n and p (bloom/bloom.go:52-56) is not modelled.
- Bloom.NewBloom: likewise.
- Concurrent use of the byte-string filter, whose functions share two mutable hashers (bloom/bloom.go:60-66).
- Cbc.EncryptionExact: a key shorter than a block panics, although Go would allow it if the slice had spare capacity; that padding may write into the spare capacity of the caller's plaintext is not modelled either.
- Cbc.DecryptionExact: AES itself, of which only being a block permutation with an inverse is used, and buffers: results are values.
- NextPeriod.Months.NextIs: UTC only.
- NextPeriod.NextTimes: UTC only; not modelled are other time zones, the bounded range of Go's time and duration types, and the wall clock (time/time.go:13-30).
- Casing outside ASCII, where Unicode case tables would be needed; strings are sequences of characters, not of bytes.
- Murmur hashes, whose values are parameters, and the pooled hashers that compute them.
- ForEach, whose callback runs under the read lock (concurrentmap/i64map/map.go:391-407), JSON output and capacity hints of the maps.
- LockSections.RunRefines: readers are let in whenever no writer is inside, which allows more schedules than a lock whose waiting writers hold back new readers; the liveness results (FanIn, KeysChannel) have such a lock.
- A panic inside the function given to DoStop, and real time: a timeout may come at any moment.
- Identifiers, compression, data access, network addresses, randomness, RSA, Curve25519, secure channels, routine wrappers and the countdown: foreign libraries, or nothing that spans operations.
