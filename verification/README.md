# Verified model of the zone store and its neighbours

A Dafny model of the parts of this DNS server (a fork of CoreDNS) whose correctness rests on
data structures and small protocols, with proofs of what those parts promise.

- **Zone store** (`plugin/file`, `plugin/sign`, `plugin/transfer`). `Names` has the label order
  of the tree, `Escapes` and `NameText` the byte loops that compute it. `Llrb` is the left-leaning
  red-black tree as a value; `ZoneTree` and `Store` are the nodes and the tree that are updated
  in place and refine it; `History` runs any sequence of operations. `Walk` and `Sign` are the
  walk that tells delegated names and the NSEC chain; `Canonical` sets the order of the tree
  beside the canonical one. `Zones` and `Transfer` are zone contents and zone transfer in both
  directions. `Queries` specifies `Zone.Lookup` and says what its answers mean, `LiveLookup` and
  `LookupText` are its code on the tree and on texts. `Answers` has the outcomes that do not come
  from the walk and says when a name is denied, `Cuts` says which answers come from below a cut,
  `Chains` follows CNAMEs within a zone and through a server that asks itself, and `Trails` puts
  the answer of such a server together from what its zones give.
- **Response cache** (`plugin/cache`, `plugin/pkg/cache`): `Messages`, `Shards`, `ResponseCache`.
- **Connection pool** (`plugin/forward`): `Stacks` and `Transports` for the stacks of the
  manager, `Pool` for the manager and any number of clients as a step system, `ManagedPool` for
  the link between the two, `PoolRuns` for a run out of order, `Handing` for which connection a
  client gets, and `Blocking` for which clients can go on.
- **Error consolidation** (`plugin/errors`): `Consolidation`, atomic steps of any number of
  threads, timers and calls of `stop`, and `ErrorRuns`, what whole runs count, log and leave behind.
- **Backend answers** (`plugin/backend_lookup.go`): `Backend` for the recursion and `Services`
  for what its answers contain.
- **Weighted selection** (`plugin/loadbalance`): `Weighted`.

`dafny verify dfyconfig.toml` checks everything.

## How to read it

A name is the sequence of its labels, the one next to the root first, so that "is an ancestor
of" is "is a prefix of". Heap structures are described by ghost values: `Shape` says which node
hangs where, `Rep` says which tree the nodes stand for, and `Tree.view` ties them to the map of
contents. Step systems are a state, an `Enabled` test and a `Next` function; a run is a
sequence of states that steps connect, and main results hold for every state of every run.

Clocks, random draws, evictions, hashes, what other plugins answer and whether a dial succeeds
are parameters or arbitrary choices. Times are integers (nanoseconds in the cache).

Places where the code and its documentation or comments differ, or where a property holds
only under a condition:

- `less` is meant to be the canonical order of section 6.1 of RFC 4034. It compares labels with
  the dot that ends them, so it is not for labels of which one continues the other with a byte
  below the dot, such as `a` and `a-b`, and for the root, whose text is a dot, against a label
  that begins below it, such as `*`. `Canonical` has the inputs and the exact condition, for
  labels, names and the NSEC chain.
- `doDDD` decodes escapes but does not shorten the label, so two spellings of one name are
  usually two names to the tree (`Escapes.EqualKeysExactly`, `Escapes.CodedIsAnother`).
- The root sorts behind names whose top-level label begins below the dot, so `Next` does not find
  them from the root (`Names.AncestorFirst`, `Queries.NextTells`, `Queries.RootDenied`). A query
  for the root in a zone at the root meets the origin twice (`LookupText.NameFromRight`).
- A cut ends a lookup only on the way to the name asked for. Answers from at or below a cut are
  possible through a CNAME, from a wildcard that owns NS, and under a DNAME above the cut; `Cuts`
  has an input and the exact condition for each.
- A cleanup of the pool is exact exactly when stale connections lie below the others. Stamps are
  set before the connection is sent, so this needs yields to arrive in stamp order
  (`Stacks.CutExactly`, `Pool.TickIsExact`, `PoolRuns.TickClosesTooMuch`). The same holds for a
  dial that finds the top of its stack stale (`Pool.DialIsExact`, `PoolRuns.DialClosesTooMuch`).
- A client that dials after the connection manager has stopped waits for ever, and only such a
  client does (`Blocking.MovesExactly`, `Blocking.StopBlocks`).
- `stop` is meant to log what has been counted. A thread whose timer fires before it has stored it
  can store it over a newer one; a `stop` that comes then does not see the newer timer
  (`ErrorRuns.LeftPendingExactly`, `ErrorRuns.StopOverlooks`).
- A single record left over after batching is replaced by the first SOA (`Transfer.Batch`,
  `Transfer.LoneRecordSwapped`).
- Weights are documented as 1 to 255, but the weight file may say 0. When all addresses of an
  answer have weight 0 there is no draw: `Intn(0)` panics (`Weighted.DrawExactly`).
- `key` reads the first question of a cacheable reply without a test; `Cache.WriteMsg` requires
  one there (`ResponseCache.KeyPanicsExactly`).
- The zones excepted from caching and the AD bit of the request are known only to the writer of an
  ordinary query, not to the writers of prefetches and stale refreshes.

## Model

| member | source | states |
|---|---|---|
| `Names.CompareFlip` | plugin/file/tree/less.go:17-43 | the order is antisymmetric, and two names compare equal only when they are the same |
| `Names.CompareTransitive` | plugin/file/tree/less.go:17-43 | the order is transitive |
| `Names.TotalOrder` | plugin/file/tree/less.go:17-43 | for all names: exactly one of before, equal, after; and transitivity |
| `Names.AncestorFirst` | plugin/file/tree/less.go:17-43 | a name comes before everything below it, but for the root, which comes behind names whose top-level label begins with a byte below the dot |
| `Names.DescendantsContiguous` | plugin/file/tree/less.go:17-43 | whatever lies between a name and one of its descendants is itself a descendant |
| `Escapes.LabelEnds` | plugin/file/tree/less.go:20-21 | no dot inside a label in presentation form ends it, and the one behind it does, by the number of backslashes before it |
| `Escapes.DoDDD` | plugin/file/tree/less.go:46-58 | in place: the label with every `\DDD` decoded from left to right, and behind it, once per escape, its last three bytes again |
| `Escapes.EqualKeysExactly` | plugin/file/tree/less.go:30-33 | two labels with the same decoding compare equal exactly when they have equally many escapes and, if any, end in the same three bytes |
| `Escapes.CodedIsAnother` | plugin/file/tree/less.go:30-33 | `\097` and `a` are one label in two spellings, and the tree keeps them apart |
| `Escapes.DecodedOrderExactly` | plugin/file/tree/less.go:30-33 | labels are ordered by their decodings exactly when equal decodings have equal leftovers, and the leftover of a decoding that begins another comes before what follows there |
| `NameText.PrevLabelFinds` | plugin/file/tree/less.go:20-21 | `dns.PrevLabel` on the text of a name, with escapes or the root, gives the offset of the k-th label from the right, or reports the overshoot |
| `NameText.Less` | plugin/file/tree/less.go:17-43 | the loop of `less` on two texts, with escapes or the root, compares decoded labels from the right, a name before those below it |
| `NameText.UncodedCompare` | plugin/file/tree/less.go:17-43 | without `\DDD` escapes that is the order of the tree, the root included |
| `NameText.Authoritative` | plugin/file/tree/auth_walk.go:34-46 | the loop that advances by bytes instead of labels finds a delegated proper ancestor exactly when there is one |
| `NameText.TextInjective` | plugin/file/tree/less.go:17-43 | different names have different texts |
| `Llrb.FixUpRepairs` | plugin/file/tree/tree.go:97-110 | `fixUp` restores the balance of a node whose subtrees are balanced, keeps its black height, and says when the result is red |
| `Llrb.FixUpAll` | plugin/file/tree/tree.go:97-110 | `fixUp` keeps the elements in order |
| `Llrb.MovedRedLeft` | plugin/file/tree/tree.go:113-123 | `moveRedLeft` brings a red link to the left subtree and leaves something `fixUp` can repair |
| `Llrb.MovedRedRight` | plugin/file/tree/tree.go:126-133 | `moveRedRight` gives the right subtree a red link, possibly leaning right, and says which key it then has |
| `Llrb.InsertGrows` | plugin/file/tree/tree.go:178-217 | insertion into a balanced tree keeps the black height and leaves at most a red root over a red left child |
| `Llrb.InsertAll` | plugin/file/tree/tree.go:178-217 | insertion is insertion into the sorted list of elements |
| `Llrb.InsertExisting` | plugin/file/tree/tree.go:191-209 | insertion at a stored name changes neither shape nor colours nor elements |
| `Llrb.DeleteMinShrinks` | plugin/file/tree/tree.go:233-245 | `deleteMin` of any balanced tree gives a balanced tree once its root is painted black, of the same black height where there was a red link |
| `Llrb.DeleteMinAll` | plugin/file/tree/tree.go:233-245 | `deleteMin` removes the first element |
| `Llrb.DeleteMaxShrinks` | plugin/file/tree/tree.go:261-277 | the same for `deleteMax`, also for a node that leans right |
| `Llrb.DeleteMaxAll` | plugin/file/tree/tree.go:261-277 | `deleteMax` removes the last element |
| `Llrb.DeleteShrinks` | plugin/file/tree/tree.go:309-339 | the same for `delete`; a right-leaning node is allowed exactly when the key is not below it |
| `Llrb.DeleteAll` | plugin/file/tree/tree.go:309-339 | `delete` removes exactly the element of that name |
| `Llrb.SearchFinds` | plugin/file/tree/tree.go:153-166 | `search` agrees with a linear scan of all elements |
| `Llrb.FloorIsPrev` | plugin/file/tree/tree.go:382-396 | `floor` is the greatest element at or before the name, by a scan of all elements |
| `Llrb.CeilIsNext` | plugin/file/tree/tree.go:411-426 | `ceil` is the smallest element at or after the name, by a scan of all elements |
| `Llrb.SearchIsShort` | plugin/file/tree/tree.go:153-166 | a search path in a balanced tree of n elements has at most 2 * log2(n + 1) nodes |
| `Llrb.PutFind` | plugin/file/tree/tree.go:178-217 | what the sorted list holds after an insertion |
| `Llrb.WithoutFind` | plugin/file/tree/tree.go:309-339 | what the list holds after a removal |
| `ZoneTree.Elem.Name` | plugin/file/tree/elem.go:58-67 | returns the owner, reads it from a record when it is not cached, and caches it |
| `ZoneTree.Elem.Insert` | plugin/file/tree/elem.go:73-88 | appends to the RRset of the record's type, duplicates included |
| `ZoneTree.Elem.Delete` | plugin/file/tree/elem.go:91-98 | removes the RRset of the record's type |
| `ZoneTree.Node.RotateLeft` | plugin/file/tree/tree.go:66-74 | the pointer rotation is the rotation of the tree it stands for, on the same nodes |
| `ZoneTree.Node.RotateRight` | plugin/file/tree/tree.go:77-85 | the same to the right |
| `ZoneTree.Node.FlipColors` | plugin/file/tree/tree.go:88-93 | flips the colours of a node and its children in place |
| `ZoneTree.Node.FixUp` | plugin/file/tree/tree.go:97-110 | in place, `fixUp` refines its value form on the same nodes |
| `ZoneTree.Node.MoveRedLeft` | plugin/file/tree/tree.go:113-123 | in place, refines its value form |
| `ZoneTree.Node.MoveRedRight` | plugin/file/tree/tree.go:126-133 | in place, refines its value form |
| `ZoneTree.Node.DeleteMin` | plugin/file/tree/tree.go:233-245 | in place, refines its value form, never follows nil, and reports how many nodes went |
| `ZoneTree.Node.DeleteMax` | plugin/file/tree/tree.go:261-277 | in place, refines its value form, never follows nil, and reports how many nodes went |
| `ZoneTree.Node.Delete` | plugin/file/tree/tree.go:309-339 | in place, refines its value form, never follows nil, and reports how many nodes went |
| `ZoneTree.Insert` | plugin/file/tree/tree.go:178-217 | in place, refines its value form; at a stored name only that element's records change |
| `ZoneTree.Search` | plugin/file/tree/tree.go:153-166 | the loop computes the search of the tree it walks |
| `ZoneTree.Floor` | plugin/file/tree/tree.go:382-396 | refines its value form |
| `ZoneTree.Ceil` | plugin/file/tree/tree.go:411-426 | refines its value form |
| `ZoneTree.Collect` | plugin/file/tree/all.go:12-21 | appends all elements in order |
| `Store.Tree.Insert` | plugin/file/tree/tree.go:170-176 | the tree stays ordered, balanced and black at the root, `Count` is its size, and the contents are the old ones with the record appended |
| `Store.Tree.Search` | plugin/file/tree/tree.go:141-150 | finds exactly the stored names |
| `Store.Tree.Delete` | plugin/file/tree/tree.go:280-294 | removes exactly one RRset, and the name with its last one; the tree stays valid |
| `Store.Tree.DeleteNode` | plugin/file/tree/tree.go:296-307 | removes exactly one name; the tree stays valid |
| `Store.Tree.DeleteMin` | plugin/file/tree/tree.go:220-231 | removes exactly the first name; the tree stays valid |
| `Store.Tree.DeleteMax` | plugin/file/tree/tree.go:248-259 | removes exactly the last name; the tree stays valid |
| `Store.Tree.Prev` | plugin/file/tree/tree.go:370-380 | the greatest stored name at or before the given one, or none when there is none |
| `Store.Tree.Next` | plugin/file/tree/tree.go:400-409 | the smallest stored name at or after the given one, or none when there is none |
| `History.Replay` | plugin/file/tree/tree.go:170-307 | any sequence of insertions and deletions from the empty tree refines the same operations on a map from names to RRsets |
| `History.StepDetermined` | plugin/file/tree/tree.go:170-307 | the map after an operation is determined by the map before |
| `History.RunKeeps` | plugin/file/tree/tree.go:170-307 | after any such sequence exactly the records are stored that were inserted and not removed since, per name and type in the order of insertion, and a name is stored exactly when it has such records |
| `History.SearchDepth` | plugin/file/tree/tree.go:153-166 | no search in a valid tree looks at more than 2 * log2(Count + 1) nodes |
| `Walk.AuthWalk` | plugin/file/tree/auth_walk.go:21-58 | the recursive walk visits the elements in order, threading the set of delegated names |
| `Walk.AuthDecided` | plugin/file/tree/auth_walk.go:30-46 | the delegated names met so far decide for a name, because its ancestors come before it |
| `Walk.AuthWalkTree` | plugin/file/tree/auth_walk.go:14-58 | every stored name is visited once, in order, with auth false exactly when a stored proper ancestor owns an NS RRset |
| `Sign.SignElem` | plugin/sign/signer.go:78-107 | one visit inserts the NSEC of an authoritative name with the name that follows it |
| `Sign.SignNode` | plugin/sign/signer.go:78-107 | the walk goes on over the nodes it started with although its callback inserts, because no node changes |
| `Sign.CollectNames` | plugin/sign/nsec.go:13-25 | the authoritative names in order |
| `Sign.SignTree` | plugin/sign/signer.go:57-107 | the contents after signing are those of the walk over the names as they were |
| `Sign.ChainNames` | plugin/sign/nsec.go:13-25 | the list has exactly the authoritative names, each once, in order |
| `Sign.ChainIsCycle` | plugin/sign/signer.go:57-107 | every authoritative name gets one NSEC, to the next one in the order of the tree and from the last to the first, whose types are those of the name with RRSIG and NSEC, and NS and SOA at the origin; nothing else changes |
| `Canonical.LabelsAgree` | plugin/file/tree/less.go:13-43 | the code compares two labels in presentation form as section 6.1 of RFC 4034 does exactly when, where they first differ, neither ends while the other goes on below the dot, and no backslash stands on the wrong side of the other byte |
| `Canonical.PlainOdd` | plugin/file/tree/less.go:13-43 | without backslashes: exactly when neither continues the other with a byte below the dot |
| `Canonical.NamesAgree` | plugin/file/tree/less.go:13-43 | two names are in canonical order exactly when the labels in which they part are not such a pair, and not one of them is the root and the top-level label of the other begins below the dot |
| `Canonical.DashSortsFirst` | plugin/file/tree/less.go:13-43 | a-b.org. sorts before a.org. in the tree and after it canonically |
| `Canonical.StarBeforeRoot` | plugin/file/tree/less.go:13-43 | `*.` sorts before the root in the tree and after it canonically |
| `Canonical.ChainCanonicalExactly` | plugin/sign/signer.go:76-107 | the chain is in canonical order exactly when no two authoritative names are such a pair |
| `Canonical.DashBreaksChain` | plugin/sign/signer.go:76-107 | with the names org, a.org and a-b.org the chain is not in canonical order |
| `Canonical.StarBreaksChain` | plugin/sign/signer.go:76-107 | with the names `.` and `*.` the chain is not in canonical order, and its last NSEC points to `*.` |
| `Canonical.LastPointsToApex` | plugin/sign/signer.go:76-107 | in a zone whose names are all at or below the origin, the last NSEC points to the origin exactly when the origin is stored and, if it is the root, no authoritative name has a top-level label that begins below the dot (section 4.1.1 of RFC 4034) |
| `Zones.LoweredTwice` | plugin/file/zone.go:75-78 | lower-casing a record twice is lower-casing it once |
| `Zones.LoweredExactly` | plugin/file/zone.go:75-112 | a lower-cased record differs from the original in the owner and the names that are lowered for its type, which have the same letters and no capitals |
| `Zones.InsertExactly` | plugin/file/zone.go:75-116 | NSEC3 records and no others are rejected; a SOA replaces that of the apex, NS of the origin and signatures of SOA and of that NS go to the apex, and every other record is appended to the RRset of its owner and type, and nothing else changes |
| `Zones.InsertedFound` | plugin/file/zone.go:75-116 | a record inserted in any case is found under its owner in lower case |
| `Zones.StoredIsLower` | plugin/file/zone.go:75-116 | in a zone built by `Insert` no owner and none of those names has a capital letter |
| `Zones.BuiltIsWellFormed` | plugin/file/zone.go:75-116 | in a zone built by `Insert` every record is in the part `Insert` chose |
| `Zones.PartsOfZone` | plugin/file/zone.go:75-116 | in such a zone the tree holds no SOA, no NS of the origin, no signature of either and nothing of NSEC3, every record is under its owner, and the apex holds just those NS records and signatures |
| `Zones.StreamRecords` | plugin/file/xfr.go:27-43 | the stream is the apex records, the records of all names, and the SOA again |
| `Zones.RoundTrip` | plugin/file/xfr.go:21-45 | inserting the stream of a zone into an empty zone gives the same apex and the same RRsets, in whatever order names list their types |
| `Transfer.ListElem` | plugin/file/tree/elem.go:49-55 | all records of an element, each RRset once |
| `Transfer.WalkChunks` | plugin/file/tree/walk.go:16-33 | one chunk per stored name, in order |
| `Transfer.Switch` | plugin/file/zone.go:78-112 | the switch over the record type gives the place of the specification |
| `Transfer.LiveZone.Insert` | plugin/file/zone.go:75-116 | in place, refines the insertion into the zone value; rejects NSEC3 records |
| `Transfer.LiveZone.Transfer` | plugin/file/xfr.go:21-45 | an error without a SOA, the SOA alone for the current serial, and otherwise the whole stream |
| `Transfer.LiveZone.TransferIn` | plugin/file/secondary.go:18-58 | the zone is replaced by what was received when everything arrived, and otherwise unchanged |
| `Transfer.Batch` | plugin/transfer/transfer.go:125-176 | the messages carry the records of the stream in order, unless exactly one record is left over, a SOA was seen and the two differ; all messages but the last have more than 500 records, and none more than 500 and the longest chunk |
| `Transfer.LoneRecordSwapped` | plugin/transfer/transfer.go:147-163 | a chunk of more than 500 records that begins with a SOA, and one other record after it: that record is replaced |
| `Transfer.FramedIsKept` | plugin/transfer/transfer.go:147-163 | a stream that begins and ends with the same SOA is sent as it is |
| `Transfer.ReceiveFlat` | plugin/file/secondary.go:24-44 | how records are cut into messages does not matter to the receiver |
| `Transfer.ReceiveExactly` | plugin/file/secondary.go:33-46 | a transfer succeeds exactly when no envelope brings an error and no record is rejected, and then gives the zone with all records inserted in order |
| `Transfer.StreamFramed` | plugin/file/xfr.go:27-43 | the stream starts and ends with the same SOA and has no empty chunk (section 2.2 of RFC 5936) |
| `Transfer.TransferZone` | plugin/file/secondary.go:18-58 | streaming, batching and receiving makes the secondary equal to the primary |
| `LookupText.NameFromRight` | plugin/file/zone.go:158-178 | on texts, gives the name of every level between the origin and the query name, and the overshoot |
| `LookupText.ReplaceWithAsteriskLabel` | plugin/file/wildcard.go:6-13 | on texts, replaces the leftmost label, and gives nothing for a single label |
| `LiveLookup.Descend` | plugin/file/lookup.go:89-172 | the loop over the levels computes the walk of the specification on the tree in place |
| `LiveLookup.VisitLevel` | plugin/file/lookup.go:96-171 | one round of the loop: what is found at a level, whether it ends the walk, and which wildcard is kept |
| `LiveLookup.TypeForWildcard` | plugin/file/tree/elem.go:33-46 | copies of the records, owned by the query name |
| `LiveLookup.FollowCnames` | plugin/file/lookup.go:332-379 | the `Redo` loop follows CNAMEs as the specification does, to an answer or to a target outside the zone; the type assertions on CNAMEs hold |
| `LiveLookup.ExternalLookup` | plugin/file/lookup.go:322-380 | computes the chase of the specification and leaves the zone as it was |
| `LiveLookup.NextBelow` | plugin/file/lookup.go:256-260 | whether the next stored name is below the query name |
| `LiveLookup.LookupZone` | plugin/file/lookup.go:33-292 | `Lookup` on the tree in place computes the lookup of the specification, whose outcomes `Answers`, `Queries` and `Cuts` state, and leaves the zone as it was |
| `Queries.CutDelegates` | plugin/file/lookup.go:152-169 | when the stored name nearest to the origin that decides is a cut, the result is a delegation with its NS records and no answer |
| `Queries.DnameRedirects` | plugin/file/lookup.go:114-150 | when it is a DNAME above the query name, the answer is the DNAMEs and a CNAME to the same place below the target |
| `Queries.StoredNameAnswers` | plugin/file/lookup.go:179-209 | a stored name that nothing hides: an alias is chased from its CNAMEs; otherwise its records of the type with the NS of the apex, or no data with the SOA when it has none |
| `Queries.WildcardAnswers` | plugin/file/lookup.go:211-249 | a missing name is answered from the wildcard of the deepest missing level that has one, with copies owned by the query name: its CNAMEs chased, its records of the type with the NS of the apex, or no data with the SOA |
| `Queries.AsteriskExactly` | plugin/file/wildcard.go:6-13 | the wildcard of a name has its labels but for the leftmost, which is an asterisk, and a single label has none |
| `Queries.NextTells` | plugin/file/lookup.go:256-260 | one `Next` tells whether anything is stored at or below a name, but for names with a low top-level label below the root |
| `Queries.NameErrorExactly` | plugin/file/lookup.go:251-292 | without a name, wildcard, cut or DNAME the result is a name error exactly when nothing is stored at or below the name but what the root misses, and success otherwise; the SOA is in the authority section |
| `Queries.RootDenied` | plugin/file/lookup.go:251-292 | a root zone that stores `*.` denies the root, although a name is below it |
| `Queries.DelegationExactly` | plugin/file/lookup.go:89-172 | a delegation is given exactly when the first deciding name on the way is a cut |
| `Answers.ApexAnswers` | plugin/file/lookup.go:44-74 | a zone without SOA fails; SOA and NS of the origin come from the apex, whatever the loop count; past eight re-entries all else fails, and until then the tree decides |
| `Answers.UpstreamTold` | plugin/file/lookup.go:332-400 | an alias that leaves the zone is answered with its CNAMEs and what upstream gives; the result is a failure when upstream fails, success when it is silent, and otherwise follows the code and the records of its message |
| `Answers.DeniedExactly` | plugin/file/lookup.go:89-292 | every lookup that reaches the tree gives a name error exactly when there is no cut, DNAME or wildcard for the name and nothing stored at or below it but what the root misses, or when upstream denies the name a chase came to |
| `Cuts.AnsweredAboveCuts` | plugin/file/lookup.go:152-172 | without a DNAME on the way, a name is answered rather than delegated exactly when no stored name on the way to it owns NS, but for a DS query at the cut itself |
| `Cuts.DnameHidesCut` | plugin/file/lookup.go:114-169 | with a cut on the way, there is no delegation exactly when a DNAME lies at or above all cuts of the way |
| `Cuts.WildcardCuts` | plugin/file/lookup.go:211-249 | no proper ancestor of the answering wildcard in the zone owns NS, so it answers from a cut exactly when it owns NS itself |
| `Cuts.ChaseGives` | plugin/file/lookup.go:332-379 | a chase adds what the stored names it meets have, their CNAMEs or else their records of the type, and then what comes from upstream, whose result it takes over; the authority section is the NS of the apex |
| `Cuts.ChaseCuts` | plugin/file/lookup.go:332-379 | what a chase takes from the zone comes from at or below a cut exactly when a name it meets has something to give and is at or below a cut |
| `Cuts.AliasIntoCut` | plugin/file/lookup.go:332-379 | an alias of a name below a cut is answered with the address of that name |
| `Cuts.WildcardIsCut` | plugin/file/lookup.go:211-249 | a wildcard that owns NS answers with its address |
| `Cuts.DnameOverCut` | plugin/file/lookup.go:114-150 | a name below a DNAME and a cut further down is redirected, not delegated |
| `Queries.ChaseNeverDelegates` | plugin/file/lookup.go:322-380 | a chase never gives a delegation and keeps the records it started with |
| `Chains.ChaseBounded` | plugin/file/lookup.go:332-379 | with at most one CNAME per name, cycles included, a chase holds at most ten in-zone CNAMEs, each owned by the previous target, and says where it ended |
| `Chains.AsksOnce` | plugin/file/lookup.go:322-400 | a lookup depends on upstream only through the one name it asks |
| `Chains.TrailBounded` | plugin/file/lookup.go:66-74 | re-entry is cut off: a query at loop count n visits at most 10 - n names |
| `Chains.TrailDecides` | plugin/pkg/upstream/upstream.go:24-35 | the answer of a server depends on nothing but the names of that trail |
| `Chains.ResultPassesThrough` | plugin/file/lookup.go:382-400 | a result that `ServeDNS` puts into a message and `doLookup` reads again keeps its records; errors stay errors, and an answer without records comes back as no data |
| `Chains.LookupFollows` | plugin/file/lookup.go:33-292 | every answer of a zone is one chain that starts at the query name |
| `Chains.ServeFollows` | plugin/file/file.go:87-114 | across all zones of a server and all re-entries, an answer is one chain that starts at the query name |
| `Trails.LookupSplits` | plugin/file/lookup.go:322-400 | a lookup that asks nobody does not depend on upstream; one that asks has records, puts what it is told behind them and takes over the result |
| `Trails.TrailLeads` | plugin/pkg/upstream/upstream.go:24-35 | the trail of a query starts at its name, the zone of every name on it asks for the next, and that of the last for none |
| `Trails.AnswerIsTrail` | plugin/file/file.go:87-114 | the answer of the server is what each zone of the trail gives by itself, or others for the last name, one behind the other |
| `Trails.ResultIsLast` | plugin/file/file.go:94-110 | a denial or a failure at the last name of the trail is one of the whole answer, and nothing else is |
| `Stacks.CutExactly` | plugin/forward/persistent.go:107-118 | a cleanup cuts off the stale connections and no others exactly when the stale ones lie below the others |
| `Stacks.SortedIsExact` | plugin/forward/persistent.go:52-69 | in a sorted stack a cleanup is exact and a dial that clears the stack clears only expired connections |
| `Transports.Search` | plugin/forward/persistent.go:112-114 | the binary search computes its specification |
| `Transports.CloseConns` | plugin/forward/persistent.go:87-91 | every connection of the list is closed |
| `Transports.Transport.OnDial` | plugin/forward/persistent.go:52-69 | takes the top of the stack for the protocol when it is fresh; otherwise clears that stack and hands all of it to `closeConns`; other stacks stay |
| `Transports.Transport.OnYield` | plugin/forward/persistent.go:71-73 | pushes the connection on the stack of its kind; other stacks stay |
| `Transports.Transport.Cleanup` | plugin/forward/persistent.go:94-120 | what every stack keeps and what is handed to `closeConns` |
| `Pool.StepMoves` | plugin/forward/persistent.go:46-138 | every step of manager and clients moves just the connections it names to one place |
| `Pool.InvKept` | plugin/forward/persistent.go:46-138 | every step keeps the invariant |
| `Pool.RunSafe` | plugin/forward/persistent.go:46-138 | in every run each connection is in exactly one place, stacks and offers hold the right kind, and at most one client waits, for the kind being offered |
| `Pool.HandedOut` | plugin/forward/connect.go:47-72 | a client that gets a connection from `ret` is the only one waiting, gets the kind its request led to, and is the only holder; the connection is not closed |
| `Handing.DialRepliesRight` | plugin/forward/persistent.go:52-69 | in every run, a dial replies with a connection exactly when it was pooled last among those that carry the protocol (UDP, TCP or TLS; unknown protocols count as UDP) and less than the expiry time has passed since its stamp |
| `Handing.WantsWhatItAsked` | plugin/forward/connect.go:47-54 | a client goes for the protocol it asked for last, or for TLS where that is configured |
| `Handing.GetsWhatItAsked` | plugin/forward/connect.go:47-72 | from the pool or dialled, a client that asked for udp gets a UDP connection and one that asked for tcp one that is not; with TLS no client gets a UDP connection |
| `Handing.HandedOn` | plugin/forward/persistent.go:71-73 | a connection that is stamped and yielded is what the next dial for its protocol gets, if the manager does nothing in between and it has not expired |
| `Handing.StopClosesAll` | plugin/forward/persistent.go:78-81 | stopping hands every pooled connection to `closeConns` |
| `Handing.StoppedStays` | plugin/forward/persistent.go:78-81 | after that nothing is ever pooled again |
| `Blocking.MovesExactly` | plugin/forward/connect.go:53-54 | in every reachable state a client can take a step, at most after the reply to another one, but for a client that dials when the manager has stopped |
| `Blocking.BlockedForever` | plugin/forward/connect.go:53-54 | such a client never takes a step again |
| `Blocking.StopBlocks` | plugin/forward/persistent.go:78-81 | a run into such a state |
| `Blocking.ClosedRetUnread` | plugin/forward/persistent.go:78-81 | no client ever reads from the closed `ret`, because every request is answered before `stop` is looked at |
| `Pool.GoneStaysGone` | plugin/forward/persistent.go:86-138 | a closed or dropped connection is never pooled, offered or held again |
| `Pool.OrderedRunSorted` | plugin/forward/persistent.go:71-73 | when yields arrive in stamp order, every stack stays sorted by stamp |
| `Pool.TickIsExact` | plugin/forward/persistent.go:75-76 | then a tick closes exactly the pooled connections that expired |
| `Pool.DialIsExact` | plugin/forward/persistent.go:52-69 | in every run, a dial closes none but expired connections exactly when it takes the top of the stack or all of the stack has expired |
| `Pool.DialClosesExpired` | plugin/forward/persistent.go:63-67 | then a dial that clears a stack closes only expired connections |
| `PoolRuns.TickClosesTooMuch` | plugin/forward/persistent.go:71-76 | a run with yields out of stamp order that ends in a tick which closes a connection that has not expired |
| `PoolRuns.DialClosesTooMuch` | plugin/forward/persistent.go:52-69 | such a run that ends in a dial which closes a connection that has not expired |
| `ManagedPool.DialStep` | plugin/forward/persistent.go:52-69 | `OnDial` computes the manager's part of a dial step of the pool |
| `ManagedPool.YieldStep` | plugin/forward/persistent.go:71-73 | `OnYield` computes the manager's part of a yield step |
| `ManagedPool.CleanupStep` | plugin/forward/persistent.go:94-120 | `Cleanup` computes a tick, and the cleanup at stop |
| `Consolidation.InvKept` | plugin/errors/errors.go:47-80 | every atomic step keeps the books and the cover |
| `Consolidation.Conserved` | plugin/errors/errors.go:47-80 | below 2^32 errors: logged, in flight and counted add up in every reachable state, and a positive count has exactly one pending timer or thread that must start one or log |
| `Consolidation.ConservedModulo` | plugin/errors/errors.go:55-69 | with counter overflow the sum holds modulo 2^32, and a positive count is still never stranded |
| `Consolidation.QuietIsLogged` | plugin/errors/errors.go:47-80 | when all threads are done and no timer is pending, everything counted has been logged |
| `Consolidation.Drains` | plugin/errors/errors.go:47-80 | once calls stop coming in, every run reaches such a state within a bounded number of steps |
| `ErrorRuns.CountedExactly` | plugin/errors/errors.go:55-59 | in every run the errors counted are those of the calls that found the stop flag down, and every call was one of these, found it up, or has not looked yet |
| `ErrorRuns.QuietLogsAdmitted` | plugin/errors/errors.go:47-70 | when nothing is left to happen, exactly the errors of the calls that found the flag down have been logged |
| `ErrorRuns.StopReadsAll` | plugin/errors/errors.go:72-80 | a call of `stop` that has finished has read the stored timer of every pattern, with the flag up |
| `ErrorRuns.StoredIsStopped` | plugin/errors/errors.go:75-78 | the timer it read is no longer pending once it has gone on |
| `ErrorRuns.LeftPendingExactly` | plugin/errors/errors.go:55-80 | when `stop` has read the timer of a pattern and all threads have finished, a timer of it is pending exactly when at that read it was pending, was not the stored one and no thread was still going to look at it, and it has not fired since |
| `ErrorRuns.StopFlushes` | plugin/errors/errors.go:72-80 | a `stop` that overlooks no timer in this way leaves nothing pending once all threads have finished |
| `ErrorRuns.StopOverlooks` | plugin/errors/errors.go:61-66 | a run in which `stop` overlooks one: the timer of the first error fires before it is stored, the next error stores a new one, and the first thread stores the old one over it |
| `Messages.TypifyExpired` | plugin/pkg/response/typify.go:140-151 | whether a section holds a signature outside its validity period |
| `Messages.Typify` | plugin/pkg/response/typify.go:57-125 | the class of a reply, as described by its header and sections |
| `Messages.OneClass` | plugin/pkg/response/typify.go:57-125 | every reply is in exactly one class |
| `Messages.EdnsDoExactly` | plugin/pkg/response/typify.go:57-80 | the DO bit is that of the last OPT record |
| `Messages.MinimalTTL` | plugin/pkg/dnsutil/ttl.go:12-45 | the smallest TTL of the records that count, an hour at most, and five seconds where there is none |
| `Messages.SmallestIsShortest` | plugin/pkg/dnsutil/ttl.go:23-44 | the records that count are those of all three sections but for additional OPT records: the result is at most the TTL of each of these and at most an hour, and one of these bounds |
| `Messages.FilterRRs` | plugin/cache/dnssec.go:8-24 | the records without OPT, in order, all with the given TTL |
| `Messages.NonOptExactly` | plugin/cache/dnssec.go:8-24 | every record that is not OPT is kept as often as it was there, and OPT records are gone |
| `Shards.Shard.Add` | plugin/pkg/cache/cache.go:87-102 | overwrites, or evicts one arbitrary element when full; the shard keeps its bound |
| `Shards.Cache.constructor` | plugin/pkg/cache/cache.go:32-45 | 256 shards of at least four elements each |
| `Shards.Cache.Add` | plugin/pkg/cache/cache.go:49-52 | the element is stored under its key, and at most one other element goes |
| `Shards.Cache.Get` | plugin/pkg/cache/cache.go:55-58 | exactly what is stored under the key |
| `Shards.Cache.Remove` | plugin/pkg/cache/cache.go:61-64 | removes exactly that key |
| `Shards.Cache.Len` | plugin/pkg/cache/cache.go:67-73 | the number of elements, never more than 256 times the shard size |
| `ResponseCache.ServedTTL` | plugin/cache/item.go:89-100 | a served TTL is what is left of the original one, 0 for a stale item, the original with keepttl, and fits 32 bits |
| `ResponseCache.StoredTTL` | plugin/cache/cache.go:182-190 | a stored TTL is at most the configured maximum, and at most every record's TTL or the configured minimum |
| `ResponseCache.StoredTTLWithin` | plugin/cache/cache.go:113-122 | a stored TTL is the one for failures, or the smallest TTL of the reply brought between the configured limits |
| `ResponseCache.PickIsHit` | plugin/cache/handler.go:123-145 | an item that is picked was stored from a reply to the same question, and is fresh or in the stale window |
| `ResponseCache.ServableExactly` | plugin/cache/handler.go:123-145 | an item is served exactly when the reply it was stored from was to the same question, and fewer seconds have passed since than its TTL, or in the stale window |
| `ResponseCache.PickExactly` | plugin/cache/handler.go:123-145 | the denial is picked when its reply can be used in that sense, otherwise the positive item when its reply can, and nothing exactly when neither can |
| `ResponseCache.ToMsg` | plugin/cache/item.go:68-95 | the reply has the item's records with the TTL that is left |
| `ResponseCache.Capped` | plugin/cache/cache.go:207-217 | the reply passed on has the TTL it was stored with |
| `ResponseCache.Cache.GetIgnoreTTL` | plugin/cache/handler.go:123-145 | a usable denial is found, otherwise a usable positive item, and nothing exactly when there is neither |
| `ResponseCache.Cache.SetPositive` | plugin/cache/cache.go:226-241 | the item is in the cache under its key, and it is recorded from which reply |
| `ResponseCache.Cache.SetNegative` | plugin/cache/cache.go:243-254 | the same for denials and failures |
| `ResponseCache.Cache.Store` | plugin/cache/cache.go:192-241 | a reply is in its cache exactly when it has a positive duration, answers the question and is not excepted; a refresh with a positive reply removes the denial, and nothing else changes |
| `ResponseCache.MayStoreExactly` | plugin/cache/cache.go:176-254 | a reply may be stored exactly when it is not truncated, is a success, delegation, denial or failure, answers the question, has a positive duration, and its zone is not excepted for its class |
| `ResponseCache.Cache.WriteMsg` | plugin/cache/cache.go:176-220 | the reply is stored exactly when it may be, and passed on with the TTL it is or would be stored with; a refresh sends nothing |
| `ResponseCache.KeyPanicsExactly` | plugin/cache/cache.go:82-93 | `key` reads past an empty list of questions exactly when a reply that would be stored has none |
| `ResponseCache.KeyPanics` | plugin/cache/cache.go:82-93 | a failure reply without a question is such a reply |
| `ResponseCache.Cache.LookUp` | plugin/cache/handler.go:17-82 | for a served zone a usable item is found, denials first, and served with the time that is left, unless it is stale and has to be verified, which asks the next plugin with the item in hand; without a usable item the next plugin is asked |
| `ResponseCache.Cache.WriteFor` | plugin/cache/cache.go:291-298 | a message for a waiting query is passed on, and stored exactly when it may be, unless a stale item waits and the message is neither a success nor a name error |
| `ResponseCache.ApplyReturn` | plugin/cache/handler.go:44-81 | a stale item is served after all exactly when the last message did not refresh it |
| `ResponseCache.Session` | plugin/cache/handler.go:17-117 | in any interleaving of look-ups, arriving messages, returns and refreshes, every look-up finds an item exactly when the caches hold one that can be used, every reply from the cache has the records of a reply stored at a step before its look-up with the exact TTL, every step changes the caches just as its reply says, and neither cache outgrows 256 * max(4, size / 256) |
| `Backend.DuplicateCNAME` | plugin/pkg/dnsutil/cname.go:6-15 | whether a CNAME with the same target is among the records |
| `Backend.Lookup` | plugin/backend_lookup.go:17-87 | the recursion computes the answer tree of the specification, makes exactly the calls of the specification, and ends for every backend |
| `Backend.LookupAlias` | plugin/backend_lookup.go:29-74 | what a service that names another host contributes |
| `Services.ReadsExactly` | plugin/backend_lookup.go:515-534 | which services a query reads: those of apex.dns for the zone itself if it has them, and of the name otherwise or for TXT |
| `Services.WithinExactly` | plugin/backend_lookup.go:44 | a host is in the zone exactly when it ends in the labels of the zone, in any case |
| `Services.AnswerIsServices` | plugin/backend_lookup.go:17-87 | a query fails exactly when no services can be read; otherwise its answer is what the services give, in order: a value not listed before, a CNAME with what its target gives or was found elsewhere, or nothing; truncated exactly when one of these is |
| `Services.ValuesReached` | plugin/backend_lookup.go:25-80 | a value is in the answer below a chain of CNAMEs exactly when following these aliases, none a loop, a repetition or too deep, leads to a name with that value |
| `Backend.CallsBounded` | plugin/backend_lookup.go:29-59 | every call of the recursion, whether it gives records or not, is reached over at most eight CNAMEs with pairwise different targets, each owned by the target of the one before, and asks for the last target |
| `Backend.CallsCounted` | plugin/backend_lookup.go:25-60 | with at most n services per name there are at most 1 + n + ... + n^8 calls |
| `Backend.PathsBounded` | plugin/backend_lookup.go:44-54 | the chains of CNAMEs in an answer are bounded and linked in the same way |
| `Backend.InZoneFollowed` | plugin/backend_lookup.go:44-60 | every in-zone CNAME the recursion emits is followed at once by a record owned by its target |
| `Weighted.WeighAll` | plugin/loadbalance/weighted.go:165-191 | every address gets the first weight listed for it, or 1, and the sum is their total |
| `Weighted.FirstWeightExactly` | plugin/loadbalance/weighted.go:184-189 | the weight is the value of the first item with the address, and 1 when there is none |
| `Weighted.AddressWeight` | plugin/loadbalance/weighted.go:172-191 | an address has the weight that the list of its owner gives it first, and 1 when that has none for it or there is no list |
| `Weighted.SortByWeight` | plugin/loadbalance/weighted.go:193-196 | some order by falling weight |
| `Weighted.Select` | plugin/loadbalance/weighted.go:197-208 | the address whose span of the running sum holds the draw, or -1 beyond the total |
| `Weighted.FallsOnOne` | plugin/loadbalance/weighted.go:198-204 | a draw falls on one position only |
| `Weighted.TotalPermutes` | plugin/loadbalance/weighted.go:193-204 | the total does not depend on the order |
| `Weighted.Fair` | plugin/loadbalance/weighted.go:161-209 | whatever the order of equal weights, each address is selected by exactly as many of the possible draws as its weight |
| `Weighted.DrawExactly` | plugin/loadbalance/weighted.go:166-197 | there is something to draw exactly when some address has a positive weight |
| `Weighted.NothingToDraw` | plugin/loadbalance/weighted.go:166-197 | an address to which the weight file gives 0 leaves nothing to draw |
| `Weighted.TopAddressIndex` | plugin/loadbalance/weighted.go:161-209 | a valid index, and the draw is one of those of that address |
| `Weighted.SetTopRecord` | plugin/loadbalance/weighted.go:146-158 | swaps the selected address to the front and changes nothing else |
| `Weighted.ClassByType` | plugin/loadbalance/weighted.go:119-130 | the four groups are the CNAMEs, the A and AAAA records, the MXs and all others, each record as often as in the input |
| `Weighted.WeightedRoundRobin` | plugin/loadbalance/weighted.go:114-143 | a permutation of the input: CNAMEs, others, addresses with the drawn one first, MX; unchanged without addresses |

## Left out

- The order of names with `\DDD` escapes inside the tree: `NameText.Less` has it, but the tree compares labels by `Names.Compare`, which is the same without such escapes.
- Canonical.LabelsAgree: labels without `\DDD` escapes, as in the tree.
- Canonical.NamesAgree: names without `\DDD` escapes, as in the tree.
- Canonical.ChainCanonicalExactly: zones without `\DDD` escapes, as in the tree.
- Sign.SignElem: does not model the RRSIGs that the callback also inserts, because signatures, keys and lifetimes are abstract here; the NSEC type bitmap is a multiset, not a sorted list.
- Sign.SignNode: does not model the RRSIGs, for the same reason.
- Sign.SignTree: does not model keys, the records inserted for them, and RRSIGs, for the same reason.
- LiveLookup.LookupZone: models requests without the DO bit, so neither signatures nor denials (`ClosestEncloser` serves only those), and not glue and the additional section, which do not change answer, authority or result.
- LiveLookup.ExternalLookup: models requests without the DO bit.
- LiveLookup.FollowCnames: models requests without the DO bit.
- The `td234` branches of the tree, which `mode = bu23` switches off, and `Tree.Print`.
- `Zone.Insert` changes the record it is given; the model builds a new record.
- `TransferIn` from several primaries, after a failed attempt, and the SOA checks before it.
- Write errors, TSIG and access control of outgoing transfers.
- Which zone serves a name (`plugin.Zones.Matches`) is an arbitrary choice of a zone above it.
- Locks in zones and caches: a look-up in the cache and the storing of one reply are atomic steps.
- The item's hit counter, the prefetch threshold and metadata of the cache; prefetches may come at any time.
- Sharing of records between cached items and replies: TTLs are set on copies.
- Rounding of `Duration.Seconds` as a float, and durations of 2^32 seconds or more.
- Separation of cache entries by the DO bit under hash collisions, which the code does not ensure.
- Average dial times, TLS set-up and the exchange of messages on a connection.
- SRV, MX, PTR, NS and SOA answers of a backend, and backends whose services change during one query.
- Parsing and reloading of the weight file; the quality of the random generator.
- Plugins, set-up, metrics and logging not named above: they start things up, report, or wrap other libraries.
