# Verified model of the fractal node's data structures and chain index

This Dafny project models the parts of the fractal node that carry its correctness: the RLP codec, the
Merkle Patricia trie with its hasher, proofs, reference-counted cache and state sync, the main-branch index,
hop counts and the greedy mining set, hash trees for fixpoint sync, the event feed, and three small data
structures of the pools. Each module follows one source file; classes have the fields the source mutates, and
their methods are proved against specification functions about which the lemmas then speak.

How hashing is modelled:

- In the byte-level modules the hash is a parameter `H` from byte strings to byte strings of 32 bytes. Collision
  freedom is assumed only on a finite set `S` of byte strings that covers the nodes in question, and only by the
  members whose contract names `S`.
- In the cache, the sync scheduler and the block modules a hash is a number that stands for fixed contents, and a
  rank says that a hash is computed after the hashes it depends on. The number zero is the zero hash.

How the modules build on each other:

- `Common`, `HashSeqs`, `Bits`: byte strings, sequences of hashes without repetition, bits of bytes.
- `RlpSpec` (the encoding as a recursive definition), `RlpEncBuf`, `RlpRaw`, `RlpStream` (the one-pass encoder, the
  slicing decoder and the stream decoder, each proved equal to it).
- `HexPrefix`, `PatriciaTree` (the trie as a value), `NodeCodec`, `TrieStore`, `TrieOps`, `Hasher`, `Generations`,
  `TrieObject`, `MerkleProof` (the trie as it lives in memory and in a store, with unloaded parts, and which nodes a commit unloads).
- `CacheDatabase`, `StateSync`.
- `BlockTree`, `Greedy`, `MainBranch`, `HashTree`, `AccHash`.
- `EventFeed`, `Bitset`, `NonceSets`, `NonceHeaps` and `PoolList`.

Preconditions that the source itself relies on are stated as `requires`: a node enters the cache after its children,
`Dereference` is called for a root that holds a reference or is on disk, the leaf callback is the only caller that passes
a parent to the sync scheduler, delivered sync data matches its hash, no trie node hashes to the zero hash, a stored
block names the simple hash of its parent and is stored after it, blocks with one simple hash name one parent hash and
round, and encoded sizes stay below 2^64.

Where the source does not do what it promises, the model follows the source and the failure is a result:

- The main-branch index lets a branch grow by simple hash, which two stored blocks may share. `MainBranch.StepPath` says
  when one event then leaves a stale entry, `MainBranch.PathIff` when every order of events keeps the height map right,
  `MainBranch.HeadIff` when every order leads to the same head and `MainBranch.ConfluenceIff` when to the same index;
  `MainBranch.TwinOrders` is an input on which they do not.
- The sync scheduler keeps one request per hash, made in the first way the hash is asked for: as a state trie node, as a
  storage trie node, or as code. A state whose tries and accounts decode is synced completely in every order if and only
  if every order of visiting it meets all of it (`StateSync.AllMeet`): `StateSync.Sync.Pending` is the one half,
  `StateSync.Follow` the other. It is enough that no hash under the root is asked for in two ways with different needs
  (`StateSync.AgreeMeets`), but not necessary (`StateSync.AgreeNotNeeded`). `StateSync.LostNode` is a state on which a node
  is lost, `StateSync.GivenTwice` one on which a hash is handed out twice.
- Reference counts in the trie cache are 16 bits wide. `CacheDatabase.Database.Insert` and `CacheDatabase.Database.Reference`
  keep them exact if they fit and, for nodes not on disk, only then; `CacheDatabase.CountWraps` is what happens at the limit.
- The size counter of the trie cache is 16 bits wide in two places. `CacheDatabase.Database.Size` gives the exact error and
  when there is none, `CacheDatabase.SizeWraps` the failing lengths.
- The decoder says that an embedded node must be smaller than a hash but accepts one of 32 bytes: `NodeCodec.RefExact` has the
  exact bound, `NodeCodec.EmbeddedAtLimit` the nodes it lets through.
- A commit does not look below a clean node that it keeps, so a node as old as the cache limit may stay:
  `Generations.UnloadIff` says exactly which nodes stay, `Generations.YoungStays` and `Generations.OldGoes` what that means for
  young and old ones, `Generations.Shielded` is an old node that stays. Cache generations are 16 bits wide:
  `Generations.NextTended` has the condition under which ages stay right when the generation advances.
- `CreateHashTree` slices its main chain list beyond its end if the greedy bound exceeds the span of the tree:
  `HashTree.CreateHashTree` says exactly when, `HashTree.OverrunInput` is an input. (In Go such a slice fails, or shows
  zero hashes where the list has spare capacity; the model has one error for both.)
- A receiver recomputes another accumulated hash than the sender's if a tree point block lies below the lower height:
  `AccHash.CalcAccHash` has the condition, `AccHash.WrongAccHash` an input.

## Model

| member | source | states |
|---|---|---|
| `RlpSpec.HeaderPrefixFree` | rlp/encode.go:150-158 | no header is a proper prefix of another with the same tags: equal byte strings starting with two headers have equal sizes and equal rests |
| `RlpSpec.EncodePrefixFree` | rlp/encode.go:181-223 | encodings are prefix free: if two encodings followed by anything agree as byte strings, items and rests agree |
| `RlpSpec.EncodeAllInjective` | rlp/encode.go:181-223 | concatenated encodings determine the list of items |
| `RlpSpec.EncodeShape` | rlp/encode.go:190-223 | the first byte tells lists, strings and single small bytes apart |
| `RlpSpec.BigEndianFits` | rlp/encode.go:585-638 | a size below 2^64 takes at most eight bytes |
| `RlpEncBuf.PutIntIsBigEndian` | rlp/encode.go:585-638 | the eight-way byte switch writes the minimal big-endian form |
| `RlpEncBuf.PutHeadIsHeader` | rlp/encode.go:150-158 | the header writer gives the short form up to 55 and the long form above, for every size |
| `RlpEncBuf.IntSize` | rlp/encode.go:643-649 | the shifting loop counts the bytes of the minimal big-endian form, one for zero |
| `RlpEncBuf.WholeItem` | rlp/encode.go:211-270 | for every nesting, splicing the deferred list headers into the data gives the recursive encoding, headers are ordered by offset, and data plus header sizes is its exact length |
| `RlpEncBuf.EncBuf.EncodeStringHeader` | rlp/encode.go:190-199 | appends exactly the string header for the size |
| `RlpEncBuf.EncBuf.EncodeString` | rlp/encode.go:201-209 | appends the encoding of the string, a small byte standing for itself |
| `RlpEncBuf.EncBuf.OpenList` | rlp/encode.go:211-215 | records where the list starts, nothing written |
| `RlpEncBuf.EncBuf.CloseList` | rlp/encode.go:217-224 | fixes the size of exactly that list, nested headers included, and adds its own header to the total |
| `RlpEncBuf.EncBuf.EncodeItem` | rlp/encode.go:181-224 | encoding an item tree appends its data and its ordered headers, whatever the buffer held |
| `RlpEncBuf.EncBuf.EncodeWhole` | rlp/encode.go:181-228 | after one item the buffer renders to its encoding and `size` is the exact length |
| `RlpEncBuf.EncBuf.ToBytes` | rlp/encode.go:230-246 | the filled array is the rendered contents, byte for byte and exactly as long |
| `RlpEncBuf.EncBuf.ToWriter` | rlp/encode.go:248-270 | a writer gets the same bytes in order; success exactly when they fit, else a prefix |
| `RlpEncBuf.EncReader.Next` | rlp/encode.go:306-337 | the next piece is the non-empty start of what is left, and none only when nothing is left |
| `RlpEncBuf.EncReader.Read` | rlp/encode.go:281-304 | any sequence of reads into buffers of any size delivers the contents in order; end of file exactly when all is delivered |
| `RlpRaw.LongHeadCanonical` | rlp/raw.go:86-156 | an accepted long header is the canonical header of its size |
| `RlpRaw.SplitStringSound` | rlp/raw.go:39-60 | what is split off as a string is the canonical encoding of the returned content, followed by the rest |
| `RlpRaw.SplitListSound` | rlp/raw.go:39-72 | what is split off as a list is a canonical list header, the content and the rest |
| `RlpRaw.SplitComplete` | rlp/raw.go:39-47 | splitting any encoding followed by anything returns its kind, payload and exactly the rest |
| `RlpRaw.HeadComplete` | rlp/raw.go:86-125 | every canonical header in front of enough content is accepted with its own sizes |
| `RlpRaw.CountComplete` | rlp/raw.go:74-84 | counting concatenated encodings gives their number |
| `RlpRaw.CountExact` | rlp/raw.go:74-125 | counting succeeds exactly on sequences of canonical headers followed by their content, and gives their number |
| `RlpRaw.CountValues` | rlp/raw.go:74-84 | the loop equals the recursive count, errors included |
| `RlpStream.Stream.WillRead` | rlp/decode.go:1016-1034 | a read is allowed exactly if it fits the innermost list and the input limit, and is then accounted to both |
| `RlpStream.Stream.ReadUint` | rlp/decode.go:964-988 | reads a big-endian size, rejecting leading zeros; fails only for want of room or a leading zero |
| `RlpStream.Stream.ReadKind` | rlp/decode.go:902-962 | consumes exactly a canonical header at the cursor, and fails only if no item starts there |
| `RlpStream.Stream.NextKind` | rlp/decode.go:869-900 | looking at the kind does not move the position; end of list exactly at the end of the innermost list |
| `RlpStream.Stream.ReadBytes` | rlp/decode.go:648-669 | takes exactly one string item, and fails only if none starts at the cursor |
| `RlpStream.Stream.OpenList` | rlp/decode.go:757-771 | enters exactly the list at the cursor, and fails only if none starts there |
| `RlpStream.Stream.ListEnd` | rlp/decode.go:773-788 | leaves a list exactly at its end and accounts its size to the enclosing one |
| `RlpStream.Stream.DecodeInterface` | rlp/decode.go:511-533 | takes exactly one item of any nesting; an error means that no item starts at the cursor |
| `RlpStream.Stream.DecodeListSlice` | rlp/decode.go:323-365 | takes exactly one list with all its elements; an error means that no list starts at the cursor |
| `RlpStream.DecodeBytes` | rlp/decode.go:136-146 | decoding succeeds exactly on encodings, with the item they encode; on an error no item at all encodes to the input |
| `RlpStream.TrailingData` | rlp/decode.go:136-146 | bytes after a whole item make the input the encoding of nothing |
| `RlpStream.RoundTrip` | rlp/decode.go:136-146 | decoding the encoding of any item returns it |
| `HexPrefix.KeybytesToHex` | trie/encoding.go:65-74 | the loop yields the nibbles of the key and the terminator |
| `HexPrefix.DecodeNibbles` | trie/encoding.go:90-94 | packs nibble pairs in place behind the untouched front |
| `HexPrefix.HexToCompact` | trie/encoding.go:37-52 | the buffer holds the compact form of every nibble string with or without terminator |
| `HexPrefix.CompactRoundTrip` | trie/encoding.go:37-63 | expanding the compact form of any key, odd or even, terminated or not, gives it back |
| `HexPrefix.CompactInjective` | trie/encoding.go:37-63 | different keys have different compact forms |
| `HexPrefix.KeyHexInjective` | trie/encoding.go:65-74 | different keys have different nibble strings |
| `HexPrefix.PrefixLen` | trie/encoding.go:97-108 | the loop finds the length of the longest common prefix |
| `HexPrefix.CommonPrefixUnique` | trie/encoding.go:97-108 | a common prefix followed by different elements is the longest one |
| `PatriciaTree.PutCanon` | trie/trie.go:218-285 | insertion keeps canonical form: no short node below a short node, at least two children per full node, terminator at key ends only |
| `PatriciaTree.PutGet` | trie/trie.go:142-285 | after an insertion the key maps to the new value and every other key to its old one |
| `PatriciaTree.RemoveCanon` | trie/trie.go:309-416 | deletion keeps canonical form, merging short nodes and reducing full nodes left with one child |
| `PatriciaTree.RemoveGet` | trie/trie.go:309-416 | after a deletion the key is absent and every other key keeps its value |
| `PatriciaTree.Unique` | trie/trie.go:218-416 | canonical tries with the same lookups are structurally equal |
| `PatriciaTree.Distinguish` | trie/trie.go:218-416 | different canonical tries disagree on some key, which is constructed |
| `PatriciaTree.RunModels` | trie/trie.go:200-307 | after any sequence of updates the trie holds exactly the final map, empty values meaning deletion |
| `PatriciaTree.HistoryIndependence` | trie/trie.go:200-416 | two update sequences with the same final map give the same trie, hence the same root hash |
| `NodeCodec.NodeRoundTrip` | trie/node.go:129-215 | decoding the encoding of any canonical node, followed by anything, gives the node back: leaf, extension, branch, embedded children below 32 bytes, hash references above |
| `NodeCodec.EmbeddedIsNode` | trie/node.go:192-215 | decoding an embedded child in place is decoding it as a node without hash |
| `NodeCodec.RefExact` | trie/node.go:192-215 | for every canonical header with content: a list of up to 32 bytes in all is decoded as an embedded node, a longer one refused; the empty string is no child, 32 bytes are a hash, any other string is refused |
| `NodeCodec.EmbeddedAtLimit` | trie/node.go:198-205 | an embedded node of exactly 32 bytes is accepted |
| `TrieStore.LoadedRep` | trie/node.go:129-215 | a freshly decoded node represents the same subtree as the hash it was loaded by |
| `TrieStore.ResolveRep` | trie/trie.go:432-441 | a clean hash reference into the store resolves, to a node representing the same subtree |
| `TrieOps.InsertRep` | trie/trie.go:218-285 | inserting below loaded, embedded and unloaded nodes represents the trie-level insertion, changed flag included, and cached hashes stay right |
| `TrieOps.DeleteRep` | trie/trie.go:309-416 | deleting below loaded and unloaded nodes represents the trie-level deletion, resolving the last child when it must merge |
| `TrieOps.ReduceRep` | trie/trie.go:358-391 | a full node left with one child becomes the merged short node, whether that child was loaded or not |
| `TrieOps.CountChildren` | trie/trie.go:358-368 | the position loop finds the only child, or reports none or several |
| `TrieOps.TryGetRep` | trie/trie.go:142-178 | a lookup returns what the trie holds, and loading nodes on the way never changes what is represented |
| `Hasher.HashRep` | trie/hasher.go:77-122 | hashing yields the hash of the node's encoding or its embedded form, caches only right hashes, unloads only what is stored, and represents the same trie |
| `Hasher.HashMatches` | trie/hasher.go:77-210 | hashing does not depend on what happens to be loaded from the store |
| `Hasher.HashGrows` | trie/hasher.go:166-210 | the store only grows, and only when a database is given |
| `Hasher.HashWrites` | trie/hasher.go:77-210 | reference, cached node and the set of written nodes do not depend on what the store held before |
| `Hasher.RootHashed` | trie/trie.go:469-476 | forced hashing of a root gives the hash of its encoding, even below 32 bytes, and with a database stores the whole trie |
| `Generations.Committed` | trie/hasher.go:77-119 | with a database, a clean node with a cached hash becomes a hash reference if and only if the generation is past its stamp by the limit or more, modulo 65536, and is otherwise kept as it is; any other node stays, clean, with its stamp and its children committed |
| `Generations.UnloadIff` | trie/hasher.go:77-119 | at every position, a commit keeps a loaded node with its stamp if and only if no node from the root down to it is met that is clean, hashed and of at least the limit in age; the first clean hashed one that is young keeps all below it |
| `Generations.CommitCleans` | trie/hasher.go:99-119 | after a commit no node in memory is dirty |
| `Generations.CommitTended` | trie/hasher.go:77-119 | a commit keeps parents at most as old as their children, and clean above clean |
| `Generations.HashTended` | trie/hasher.go:77-119 | so does hashing without a database, which changes no stamp and no dirty bit |
| `Generations.NextTended` | trie/trie.go:456-467 | advancing the generation keeps that order of ages unless a stamp is about to come round again in 16 bits |
| `Generations.YoungStays` | trie/node.go:78-81 | a node younger than the limit stays at every commit, because its parents are no older |
| `Generations.OldGoes` | trie/node.go:78-81 | an old clean node goes at a commit that finds no clean node above it |
| `Generations.Shielded` | trie/hasher.go:77-95 | a node of any limit up to 100 in age that stays, below a young clean one |
| `Generations.TryGetTended` | trie/trie.go:142-178 | a lookup that loads something stamps every node from the root to it with the current generation; one that loads nothing changes nothing; order and dirty bits are kept |
| `Generations.LookupTwice` | trie/trie.go:142-178 | a second lookup of the same key loads nothing |
| `Generations.InsertStamps` | trie/trie.go:218-285 | an insertion that changes something stamps every node along the key and leaves the root dirty |
| `Generations.InsertTended` | trie/trie.go:218-285 | insertion keeps parents at most as old as their children, and clean above clean |
| `Generations.DeleteStamps` | trie/trie.go:309-416 | a deletion that changes something stamps every node left along the key, merged ones included, and leaves the root dirty |
| `Generations.DeleteTended` | trie/trie.go:309-416 | deletion keeps parents at most as old as their children, and clean above clean |
| `Generations.LoadsEvery` | trie/trie_test.go:331-358 | with one lookup of the same key before every commit, from a stored root and for every limit, the lookup goes to the store in round i if and only if i is a multiple of the limit plus one, through any number of wrap-arounds of the generation |
| `TrieObject.InsertAgrees` | trie/trie.go:218-285 | with part of the store missing, insertion gives the same result or fails naming a missing hash |
| `TrieObject.DeleteAgrees` | trie/trie.go:309-416 | the same for deletion |
| `TrieObject.TryGetAgrees` | trie/trie.go:142-178 | the same for lookup |
| `TrieObject.Trie.TryGet` | trie/trie.go:133-140 | returns the value of the map the trie denotes, or a missing node with nothing changed; what it loads is stamped with the current generation |
| `TrieObject.Trie.TryUpdate` | trie/trie.go:200-216 | updates exactly that key of the denoted map, empty values delete, a missing node changes nothing; changed nodes are stamped and dirty |
| `TrieObject.Trie.TryDelete` | trie/trie.go:296-307 | removes exactly that key, a missing node changes nothing; changed nodes are stamped and dirty |
| `TrieObject.Trie.Hash` | trie/trie.go:448-452 | returns the root hash of the denoted map and changes neither the map nor the store |
| `TrieObject.Trie.HashRoot` | trie/trie.go:469-476 | returns the root hash; with a database everything the trie denotes is stored, and the database itself then lacks nothing that it did not lack before |
| `TrieObject.Trie.Commit` | trie/trie.go:456-467 | returns the root hash, stores the whole trie, keeps the map, and advances the cache generation in 16 bits; every written node reaches the database itself, even if that lacked nodes; nothing in memory is dirty afterwards, and a loaded node stays exactly if no old clean node is met down to it |
| `TrieObject.Open` | trie/trie.go:96-113 | a stored root opens to a trie denoting its map; only a missing root fails |
| `TrieObject.SameContentsSameRoot` | trie/trie.go:448-452 | two tries denoting the same map have the same root hash, whatever their histories and loaded parts |
| `TrieObject.RootBinding` | trie/trie.go:448-476 | on collision-free encodings the root hash determines the trie and its map |
| `MerkleProof.WalkLoop` | trie/proof.go:131-153 | the loop over one proof node equals the recursive walk: remaining key and where it ended |
| `MerkleProof.VerifyProof` | trie/proof.go:105-129 | stops wherever the bounded verification has a verdict, with that verdict and the number of nodes it went through |
| `MerkleProof.VerdictUnique` | trie/proof.go:105-129 | the verdict does not depend on the bound |
| `MerkleProof.ProofSound` | trie/proof.go:105-153 | with any content-addressed proof store, a verdict for a root is the lookup in the trie with that root, value or absence, or reports a missing proof node |
| `MerkleProof.EmptyProof` | trie/proof.go:105-129 | no content-addressed proof store makes the verifier accept anything for the empty root |
| `MerkleProof.CollectPath` | trie/proof.go:37-67 | collects the nodes on the key's path, loading unloaded ones, or fails naming a hash that is not stored |
| `MerkleProof.WriteElements` | trie/proof.go:68-88 | writes the root and every node of at least 32 bytes, from the requested level on, under its hash |
| `MerkleProof.Prove` | trie/proof.go:37-89 | writes exactly the proof elements of the key's path, or nothing and a missing hash |
| `MerkleProof.ProofComplete` | trie/proof.go:37-153 | for every trie and key, verifying the proof written from level zero returns exactly what a lookup returns, following one reference for each node of the path that is stored by hash |
| `MerkleProof.ProveAndVerify` | trie/proof.go:37-129 | a call of `Prove` from level zero into any store followed by a call of `VerifyProof` stops and returns the value or absence the trie holds, with the number of proof nodes |
| `CacheDatabase.Database.constructor` | trie/database.go:266-272 | a fresh cache holds the meta-root only |
| `CacheDatabase.GatherPlaces` | trie/database.go:182-199 | the hashes gathered from a node are those found at some place in it, at all sixteen branches and through nested short and full nodes, each as often as there are such places |
| `CacheDatabase.Database.Childs` | trie/database.go:168-199 | lists the recorded references and every hash found at some place in the node, those from the node as often as there are places |
| `CacheDatabase.Database.Insert` | trie/database.go:294-319 | a new node goes to the tail of the flush list and the count of every cached hash goes up by the number of places it has in the node, in 16 bits; if the counts fit, list shape, exact counts, order and closure are kept, and if one does not, of a child not on disk, they are not; the length field and the size counter lose what does not fit 16 bits |
| `CacheDatabase.Database.Reference` | trie/database.go:416-430 | root references repeat, node references are recorded once; counts stay exact if they fit 16 bits, and for a child not on disk only then |
| `CacheDatabase.CountWraps` | trie/database.go:416-481 | at 65535 references one more makes the count zero, so that the next release takes the node away, and the count is wrong |
| `CacheDatabase.Database.Unlink` | trie/database.go:482-493 | the three-way switch removes exactly that node from the flush list, at the head, the tail or between, and touches nothing but flush pointers |
| `CacheDatabase.Database.Release` | trie/database.go:468-501 | giving back one reference keeps list, counts and closure through every nested removal; the order of the remaining nodes is kept and no remaining count newly reaches zero |
| `CacheDatabase.Database.Cascade` | trie/database.go:481-500 | an unreferenced node leaves and each of its references is given back once, sizes accounted exactly |
| `CacheDatabase.Database.Dereference` | trie/database.go:433-501 | gives back one root reference; only unreferenced nodes below that root leave, none that becomes unreferenced stays, and the flush list keeps its order |
| `CacheDatabase.Database.Put` | trie/database.go:675-696 | every single write leaves the disk closed under recorded references |
| `CacheDatabase.Database.Cap` | trie/database.go:505-602 | flushes the oldest nodes first, no more than needed and until the size meets the limit or nothing is left; a failing write leaves the cache alone and a closed disk |
| `CacheDatabase.Database.CommitNode` | trie/database.go:675-696 | writes exactly the cached nodes below the given one, children before parents; a failing write leaves a closed part of them |
| `CacheDatabase.Database.Uncache` | trie/database.go:703-727 | only persisted nodes below the given one leave, each with its children, and no count changes |
| `CacheDatabase.Database.Commit` | trie/database.go:608-672 | on success exactly the cached nodes below the root are on disk and gone from the cache; on failure the cache is unchanged |
| `CacheDatabase.Database.Node` | trie/database.go:354-365 | a hash reads back as what it stands for exactly if it is cached or on disk |
| `CacheDatabase.Database.Size` | trie/database.go:731-739 | the reported size is the true one less 65536 for each insert that overflowed and for each 65536 bytes of a blob now cached; it is the true one if and only if there are none |
| `CacheDatabase.SizeWraps` | trie/database.go:302-318 | for every blob length, what an insert adds to the counter is right exactly below 65504 bytes, with 65504 and 65536 as failing lengths, and whether the error stays after removal |
| `CacheDatabase.ReachableIsReadable` | trie/database.go:294-501 | every node reachable along recorded references and hashes placed in nodes, from a referenced, cached or committed root, is cached or on disk |
| `CacheDatabase.UnlinkOk` | trie/database.go:482-493 | relinking around any position leaves a well-formed list without that node |
| `CacheDatabase.Drop` | trie/database.go:480-500 | taking an unreferenced or written node off the list breaks no other node's references, and turns its own into counted debt |
| `StateSync.Sync.constructor` | trie/sync.go:83-92 | a new sync over a closed database asks for the root, as a state trie node, unless it is empty or stored |
| `StateSync.Sync.Schedule` | trie/sync.go:246-255 | a pending hash gets another waiting parent, whatever way it is now asked for; a new one is queued once; counts equal links afterwards |
| `StateSync.Sync.AddSubTrie` | trie/sync.go:95-126 | an unknown trie is asked for and counted in its parent, a known or empty one is not; a stored blob that is no node counts as unknown |
| `StateSync.Sync.AddRawEntry` | trie/sync.go:132-159 | the same for code, for which anything stored will do |
| `StateSync.Sync.Callback` | core/state/sync.go:13-25 | an account adds its storage trie and its code; an undecodable one is an error and adds nothing |
| `StateSync.Sync.MissingKids` | trie/sync.go:289-315 | selects exactly the hash children that are neither buffered nor stored |
| `StateSync.Sync.CommitRequest` | trie/sync.go:321-340 | a request is stored after everything it needs; parents follow exactly when their last dependency is stored, and no request is lost |
| `StateSync.Sync.ProcessNode` | trie/sync.go:194-216 | a node is stored at once if and only if all it asks for is known, else exactly the missing parts are asked for, each with its way and depth |
| `StateSync.Sync.ProcessOne` | trie/sync.go:179-217 | which of the errors is returned, exactly when, and what each leaves unchanged; an accepted item is one visit of the exploration, stores only delivered requests and loses none |
| `StateSync.Sync.Process` | trie/sync.go:174-220 | with no error every item was accepted; an error is the one item `index` deserves in the state after the items before it, all accepted; each accepted item is processed as `Handled` says; a commit is reported exactly when something was stored |
| `StateSync.Sync.Missing` | trie/sync.go:162-169 | hands out the requested number, deepest first; a hash handed out before comes again only if it is stored, asked for as a trie though it is none, and is code under the root too or was stored before; never if there is no such hash |
| `StateSync.Sync.Flush` | trie/sync.go:224-236 | after any number of writes the database is closed in the ways its entries were stored in, and in every way they can be read if all ways agree; on success the buffer is empty, on failure it is kept |
| `StateSync.Sync.Pending` | trie/sync.go:239-241 | when nothing is pending, exactly what a finished exploration of the state meets is stored, so everything under the root if every order of visiting meets it; everything is, if and only if no dropped way of asking left a gap, and so whenever all ways of asking for a hash agree on what it needs |
| `StateSync.StoredBelow` | trie/sync.go:321-340 | along every chain of requests under a stored root everything is stored, if every gap between the ways of a hash is |
| `StateSync.FlushClosed` | trie/sync.go:224-236 | every prefix of the commit order added to the database leaves it closed |
| `StateSync.ReadyIsStored` | trie/sync.go:321-340 | a processed request with count zero has all it needs in the store |
| `StateSync.CompleteIff` | trie/sync.go:246-316 | everything under a stored root is stored if and only if every hash there has in store what its other ways of asking need beyond the first |
| `StateSync.NoGap` | trie/sync.go:246-316 | there is no such gap at a hash all of whose ways need the same |
| `StateSync.StoredFor` | trie/sync.go:246-316 | whatever was fetched besides the root was needed by a fetched hash in its first way; so what is needed only in a dropped way is never fetched |
| `StateSync.Undelivered` | trie/sync.go:321-340 | no deadlock: below every pending request lies one that is not delivered yet, or whose account failed to decode |
| `StateSync.DoneStep` | trie/sync.go:179-217 | an accepted item advances the exploration by one visit |
| `StateSync.Follow` | trie/sync.go:174-220 | for every order of visiting a well-formed state in which the first way of meeting a hash wins, the sync accepts the items in that order and ends with exactly what the visit meets; it is complete if and only if that is everything |
| `StateSync.AgreeMeets` | trie/sync.go:246-316 | if all ways of asking for a hash agree on what it needs, every order of visiting the state meets everything under the root |
| `StateSync.AgreeNotNeeded` | core/state/sync.go:13-25 | a state on which the ways do not agree and every order meets everything, because an account asks for its storage trie before its code |
| `StateSync.LostNode` | trie/sync.go:246-255 | a well-formed state with code equal to a storage trie node, on which the sync ends with nothing pending and a node under the root missing |
| `StateSync.GivenTwice` | trie/sync.go:95-126 | a state with code equal to a storage root that is no node, on which a hash is handed out twice |
| `BlockTree.DistanceIsMetric` | chain/greedy.go:36-67 | on one genesis the hop count is a metric: zero exactly on equal blocks, symmetric, triangle inequality |
| `BlockTree.WalkLength` | chain/greedy.go:36-67 | no walk along parent and child links is shorter than the hop count |
| `BlockTree.ShortestWalk` | chain/greedy.go:36-67 | some walk has exactly that length |
| `BlockTree.ForkMax` | chain/greedy.go:56-64 | ancestors of two blocks agree at a height exactly up to their lowest common ancestor |
| `BlockTree.NeighbourDistance` | chain/greedy.go:91-109 | one parent or child step changes the distance to any block by exactly one |
| `BlockTree.Closer` | chain/greedy.go:91-109 | every block other than the origin has a neighbour one step closer |
| `Greedy.Chain.GetHopCount` | chain/greedy.go:36-67 | returns the tree distance, or the error exactly when the blocks descend from different geneses |
| `Greedy.Chain.GetGreedyBlocks` | chain/greedy.go:70-114 | returns each stored block within the given distance of the head exactly once and nothing else |
| `Greedy.Chain.CheckGreedy` | chain/greedy.go:12-34 | true exactly if the last main-branch block whose round, and on equal rounds simple hash, is not past those of the block is within the greedy bound in height and reached from it by a walk of at most one link more than the bound; an error exactly if there is no such block, or the heights fit and no walk leads there |
| `Greedy.VerdictWalks` | chain/greedy.go:12-34 | the verdict on two blocks in terms of heights and walks along parent links |
| `Greedy.ChosenIs` | chain/greedy.go:13-18 | the climb finds the last main-branch block not past the given one in round and simple hash if there is one, and passes the genesis if not |
| `Greedy.Chain.InsertBlock` | chain/block_handler.go:115-145 | storing a block keeps the child index: every block listed once under its parent |
| `Greedy.Chain.FindCommonPrefix` | chain/block_handler.go:222-246 | returns the lowest common ancestor exactly if there is one at or above the limit |
| `Greedy.LastNotLaterMax` | chain/greedy.go:13-18 | in rounds and simple hashes, every block above the chosen main-branch block comes after the given one, and the chosen one does not |
| `MainBranch.FindReorgChain` | core/dbaccessor/accessor_block.go:266-296 | returns the new head's path from the lowest common ancestor upwards, or nothing if the old head is higher or unrelated |
| `MainBranch.Reverse` | core/dbaccessor/accessor_block.go:291-295 | swapping from both ends reverses the list |
| `MainBranch.BestNext` | chain/blockchain.go:571-585 | comparing with the head alone keeps a block that no block seen beats |
| `MainBranch.BestUnique` | chain/blockchain.go:571-585 | a block that beats all others is the only unbeaten one |
| `MainBranch.BestIff` | chain/blockchain.go:571-585 | an unbeaten block beats all others exactly if it is the only unbeaten one |
| `MainBranch.ForemostIff` | chain/blockchain.go:571-585 | an unbeaten block is one of the highest, of those one of lowest round, and of those one of lowest simple hash; the best one has no other block of the same three numbers |
| `MainBranch.TwinHeight` | core/types/block.go:41-48 | blocks with one simple hash are equally high |
| `MainBranch.StepHead` | chain/main_branch_record.go:84-128 | the head moves exactly if the block beats it, whichever branch is taken |
| `MainBranch.StepPath` | chain/main_branch_record.go:109-128 | from the path of the head, an event leads to the path of the new head if and only if it is not the child of another block with the simple hash of the head |
| `MainBranch.StepExplained` | chain/main_branch_record.go:109-128 | every stale entry goes back to two blocks seen that clash in this way |
| `MainBranch.HarmlessPath` | chain/main_branch_record.go:84-128 | without a clash whose stale entries the head inherits, the height map is the path of the head, after every run |
| `MainBranch.HarmRuns` | chain/main_branch_record.go:84-128 | such a clash leaves a stale entry in some order of events |
| `MainBranch.PathIff` | chain/main_branch_record.go:65-132 | the height map is the path of the head in every order of events if and only if no clash is harmful to an unbeaten block |
| `MainBranch.HeadIff` | chain/main_branch_record.go:65-132 | the head is the same in every order of events if and only if no second block ties with the best one in height, round and simple hash |
| `MainBranch.ConfluenceIff` | chain/main_branch_record.go:65-132 | head and height map are the same in every order of events if and only if no second block ties with the best one and no clash is harmful to it |
| `MainBranch.TwinOrders` | chain/main_branch_record.go:109-128 | two blocks with one simple hash and a child of one: told of the other first, the index keeps it as a stale entry, and orders disagree on the map and on the head |
| `MainBranch.Confluence` | chain/main_branch_record.go:65-132 | two records told of the same executed blocks, in any two orders and with any repetition, both end with a head of greatest height, then lowest round, then lowest simple hash; with the same one if no other has the same three, and with its path if no clash is harmful to it |
| `MainBranch.IndexUnique` | chain/main_branch_record.go:84-128 | a best block without harmful clash has one index: itself and its path |
| `MainBranch.MainBranchRecord.constructor` | chain/main_branch_record.go:34-47 | a fresh index is the genesis at height zero |
| `MainBranch.MainBranchRecord.StoreBlock` | chain/block_handler.go:115-145 | storing a further block, whatever simple hash it has, leaves head, path and all explanations of stale entries as they were |
| `MainBranch.MainBranchRecord.Executed` | chain/main_branch_record.go:84-128 | an event is one step of the index; afterwards the head is of greatest height, then lowest round, then lowest simple hash among the blocks seen, and unchanged if the block ties with it in all three; a path stays a path exactly if the event is no clash |
| `MainBranch.MainBranchRecord.EventLoop` | chain/main_branch_record.go:65-132 | after any sequence of events the head is of greatest height, then lowest round, then lowest simple hash among the blocks seen, and without a harmful clash the height map is its path |
| `MainBranch.MainBranchRecord.GetMainBranchBlock` | chain/main_branch_record.go:135-146 | an error exactly above the head; else, without a harmful clash, the head's ancestor at that height |
| `HashTree.AddAncestorsOk` | chain/hash_tree_handler.go:270-289 | adding a block's parents lists each block once with its accumulated hash, adds ancestors only, and keeps the list closed down to the lower height |
| `HashTree.AddParentList` | chain/hash_tree_handler.go:270-289 | the loop equals the recursive definition, stopping below the lower height, at a listed block or at a missing parent |
| `HashTree.AddLink` | chain/hash_tree_handler.go:175-197 | an unfinished link becomes a tree point element with its ancestors, or a pending element, unless it is known |
| `HashTree.LinkedOk` | chain/hash_tree_handler.go:173-198 | entering a link keeps the index exact, every element pending, at the tree point or resolved, and the pairs exactly the tree point's ancestors |
| `HashTree.TreeStops` | chain/hash_tree_handler.go:49-66 | in heights: an element other than the upper block ends the tree if and only if it lies at most the greedy bound above the lower height, or at height zero if the lower height is zero |
| `HashTree.PathLeaves` | chain/hash_tree_handler.go:49-104 | the path of the upper block is in the tree down to its block at the greedy bound above the lower height, which ends the tree |
| `HashTree.Expand` | chain/hash_tree_handler.go:132-217 | the block on top of the stack is completed with indices of its real parent and confirms, and its unknown links are entered once |
| `HashTree.Build` | chain/hash_tree_handler.go:111-222 | terminates; elements are exactly the closure of the upper block under parent and confirm links stopped at the tree point, each once, every index resolves, elements end the tree exactly by their height, and the pairs are exactly the boundary blocks and their ancestors; fails only on a link that is not stored |
| `HashTree.GetTreePointHashList` | chain/hash_tree_handler.go:248-268 | returns the lowest part of the upper block's path; fails exactly on a missing ancestor or, with none missing, on a length beyond the path |
| `HashTree.CreateHashTree` | chain/hash_tree_handler.go:27-222 | checks the inputs, with each error exactly on its condition, the overrun of the main chain list included, and returns tree, root index, main chain list and pairs as above; the tree ends exactly by heights, and the path of the upper block leaves it at the last entry of the main chain list |
| `HashTree.OverrunInput` | chain/hash_tree_handler.go:94-104 | a chain and a greedy bound on which the main chain list is overrun |
| `HashTree.Finish` | chain/hash_tree_handler.go:111-222 | with an empty stack the collected elements and pairs are exactly the closure and the tree point |
| `AccHash.CalcAccHash` | core/types/hash_tree.go:54-76 | the receiver recomputes the upper block's accumulated hash if no tree point block lies below the lower height, and, collisions aside, only then |
| `AccHash.WrongAccHash` | core/types/hash_tree.go:54-76 | a chain for which the tree built by the sender makes the receiver recompute a different accumulated hash |
| `AccHash.DfsVerify` | core/types/hash_tree.go:162-197 | terminates and verifies every element below the given one, each value recomputed from its sources |
| `AccHash.BuildMainChainList` | core/types/hash_tree.go:109-127 | terminates with the root's parent path, element by element and block by block, from just above the tree point up to the root |
| `AccHash.CalcAccIndexHash` | core/types/hash_tree.go:147-160 | the value of an element is the hash over its confirms, its parent and itself, in that order |
| `AccHash.RecalcIff` | chain/blockchain.go:395-424 | recomputing from the links agrees with the stored accumulated hash exactly if all tree point blocks below carry theirs |
| `AccHash.PairMapOk` | core/types/check_point.go:61-67 | the pairs give every listed block its own accumulated hash |
| `EventFeed.Conservation` | event/feed.go:128-189 | in every sequence of deliveries, removals and new subscriptions each case is delivered to, removed before that, or still waits: none lost, none doubled |
| `EventFeed.SwapOut` | event/feed.go:227-231 | deactivating moves exactly that case from the waiting to the served part |
| `EventFeed.CutFirst` | event/feed.go:170-176 | deleting the first case of a channel takes a waiting one if there is any, and shrinks the prefix exactly then |
| `EventFeed.Feed.Subscribe` | event/feed.go:72-92 | adds one subscription |
| `EventFeed.Feed.Delete` | event/feed.go:222-224 | shifts the later cases down in place, losing exactly the one |
| `EventFeed.Feed.Deactivate` | event/feed.go:227-231 | swaps in place, and nothing else moves |
| `EventFeed.Feed.Remove` | event/feed.go:103-124 | removes exactly one subscription of the channel, from the inbox first |
| `EventFeed.Feed.Send` | event/feed.go:128-189 | for every interleaving with subscriptions and unsubscriptions, an unsubscription that meets its channel subscribed again included: nobody is left waiting, deliveries and earlier removals together are the subscriptions at the start, the count is the number of deliveries, the remaining cases are those still subscribed, and who joined meanwhile waits in the inbox unserved |
| `Bitset.BitsetEncodeBytes` | common/bitutil/compress.go:71-97 | the loop builds the mask and the non-zero bytes of the recursive definition |
| `Bitset.BitsetDecodePartialBytes` | common/bitutil/compress.go:130-170 | the loop fills the marked slots, with each error exactly on its condition |
| `Bitset.DecodeEncode` | common/bitutil/compress.go:71-170 | decoding an encoding followed by anything returns the data and stops exactly behind it, if the data has a non-zero byte or nothing follows |
| `Bitset.EncodeDecode` | common/bitutil/compress_fuzz.go:45-55 | whatever is accepted re-encodes to exactly the bytes consumed |
| `Bitset.BitsetDecodeBytes` | common/bitutil/compress.go:115-124 | accepts exactly the encodings of data of the target length, returning that data |
| `Bitset.CompressBytes` | common/bitutil/compress.go:60-67 | the result is never longer than the input |
| `Bitset.DecompressBytes` | common/bitutil/compress.go:102-112 | inverts compression for every byte string and its length |
| `Bitset.MaskUnique` | common/bitutil/compress.go:84-93 | the mask is the only byte string of its length whose bits mark the non-zero bytes |
| `NonceSets.NonceSet.Add` | core/nonces/nonce_set.go:55-84 | errors exactly outside the window; changed exactly for a new member; no nonce is new twice over the life of the set |
| `NonceSets.NonceSet.Search` | core/nonces/nonce_set.go:86-107 | equals membership within the window |
| `NonceSets.NonceSet.Reset` | core/nonces/nonce_set.go:109-147 | keeps exactly the members from the new start on, with a mask ending in its highest member |
| `NonceSets.NonceSet.NextNonce` | core/nonces/nonce_set.go:51-53 | lies one above the greatest member |
| `NonceSets.MovedTight` | core/nonces/nonce_set.go:126-144 | after the shift at most one byte at the end is superfluous, and dropping it leaves the shortest mask |
| `NonceSets.Shift` | core/nonces/nonce_set.go:126-139 | the in-place loop moves the whole bit string left |
| `PoolList.OrderedUnique` | core/pool/ele_list.go:160-173 | a map has one nonce order, so a cached order is what sorting afresh gives |
| `NonceHeaps.HeapMin` | core/pool/ele_list.go:69-73 | the top of the heap is the smallest nonce |
| `NonceHeaps.UpStep` | core/pool/ele_list.go:54-60 | one exchange upwards leaves a heap but for the nonce on its way |
| `NonceHeaps.DownStep` | core/pool/ele_list.go:65-79 | one exchange downwards with the smaller child leaves a heap but for the nonce on its way |
| `NonceHeaps.NonceHeap.Up` | core/pool/ele_list.go:13-29 | sifting up a nonce that may be too small restores the heap with the same nonces |
| `NonceHeaps.NonceHeap.Down` | core/pool/ele_list.go:13-29 | sifting down a nonce that may be too large puts everything from it downwards in order, or reports that it did not move |
| `NonceHeaps.NonceHeap.HeapInit` | core/pool/ele_list.go:95-99 | any list becomes a heap of the same nonces |
| `NonceHeaps.NonceHeap.HeapPush` | core/pool/ele_list.go:56-58 | a heap with one nonce more |
| `NonceHeaps.NonceHeap.HeapPop` | core/pool/ele_list.go:69-73 | takes the top, and a heap of the others is left |
| `NonceHeaps.NonceHeap.HeapRemove` | core/pool/ele_list.go:140-145 | takes the nonce at a position, and a heap of the others is left, whether the last nonce has to move down or up |
| `PoolList.SortedMap.Put` | core/pool/ele_list.go:54-60 | stores the element; heap and map hold the same nonces |
| `PoolList.SortedMap.Forward` | core/pool/ele_list.go:65-79 | removes exactly the nonces below the threshold, in order, and the shifted cache is still the order of the rest |
| `PoolList.SortedMap.Filter` | core/pool/ele_list.go:83-104 | removes exactly the selected elements |
| `PoolList.SortedMap.Cap` | core/pool/ele_list.go:108-129 | removes exactly the highest nonces, highest first, down to the limit, and the shortened cache is still the order of the rest |
| `PoolList.SortedMap.Remove` | core/pool/ele_list.go:133-150 | removes the nonce if present and says so |
| `PoolList.SortedMap.Flatten` | core/pool/ele_list.go:160-173 | returns the items in nonce order, cached or sorted afresh from the map |

## Left out

- `MerkleProof.VerifyProof`: a proof store with a hash cycle on the path of the key is excluded, because there the loop of the source does not stop.
- `CacheDatabase.Database.Insert`: takes nodes already in collapsed form; stripping and restoring caches of in-memory nodes (trie/database.go:202-262) is not modelled.
- `CacheDatabase.Database.Commit`: the call on the zero hash is excluded; there the source panics on encoding the meta-root.
- `Greedy.Chain.CheckGreedy`: where the climb passes the genesis the source dereferences a nil block; the model returns an error value there.
- `HashTree.CreateHashTree`: index marks are a datatype instead of the two greatest 64-bit values.
- `AccHash.CalcAccHash`: only for trees as `CreateHashTree` builds them; out-of-range indices and cycles in trees from elsewhere are not modelled.
- `StateSync.Sync.AddSubTrie`: called by the constructor and the leaf callback only, as in the source; the panic on an unknown parent cannot occur.
- `EventFeed.Feed.Send`: channel types and the send lock are not modelled; a select that never becomes ready is not a step.
- `NodeCodec.NodeRoundTrip`: an empty compact key, on which the source panics, is an error value of the decoder.
- Leaf callbacks of the hasher, the cache statistics and preimages of the cache database.
- The iterator, the secure trie wrapper and its key hashing.
- Reflection-driven RLP encoding and decoding of Go types, RLP integers, booleans and raw values.
- Fast sync in the main-branch record, which writes heights without looking at ancestry.
- Locks, goroutines and the gaps between them: each public call is one step.
- Disk errors other than a write that fails, after which only a prefix of the writes is on disk.
- The hash tree's post-order traversal and main chain set, block execution, state database, transactions, p2p, rpc and consensus rules.
- The price rules of the pool lists around the sorted map; sorting is library code, for which an insertion sort stands.
- Storage sizes are integers instead of floating point numbers, exact up to 2^53.
