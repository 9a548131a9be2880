# Kavo: a verified model

Kavo is a replicated object store. Objects are cut into chunks, chunks are placed on the nodes a
consistent-hash ring names, and a manifest in etcd says which chunks make an object and where they are.
This project models its hardest parts in Dafny and proves what they are meant to guarantee.

| files | what they model |
|---|---|
| `Protocol`, `ProtocolInvariant`, `ProtocolSteps`, `ProtocolTheorems`, `ProtocolRecords`, `LosingRuns` | writes, records of writes in flight, commits, copies, multipart uploads, rebalancing and the mark-and-sweep collector, as one step relation; the invariant; safety over whole runs; what becomes of records; and runs that lose data when a proviso is broken |
| `Collector`, `CollectorProtocol`, `CollectorGarbage` | one collection pass as a node runs it, the proofs that it is the protocol's sweep and that it takes all garbage |
| `Crc`, `CrcCombine`, `CrcCheck` | a bit-at-a-time CRC, the logarithmic combination of two checksums, and the published generators and check values |
| `Ring`, `RingTies` | who owns a partition, when ties among positions show, and what a node joining or leaving moves |
| `KeyOrder`, `Prefix`, `Listing`, `ListingTheorems`, `Versions` | key order, stepping over prefixes, delimited paged listings and the two ways to resume them |
| `Objects`, `ObjectWrite`, `ObjectRead`, `ObjectTheorems` | cutting a stream into chunks, and reading a window back with the last byte withheld |
| `Multipart`, `MultipartTheorems` | completing an upload, and reading one part of the result |
| `Chunked`, `ChunkedReader`, `ChunkedTheorems`, `ChunkedText` | the aws-chunked decoder, and how a body is spelt |
| `Walk`, `Repair`, `Erasure`, `RepairShards` | the walk that repair and rebalancing share, repair of replicated objects, erasure-coded chunks, and repair of objects made of them |
| `Basics` | a few shared definitions |

Code that updates things in place is modelled by classes and methods and proved against functions;
the laws are proved of those functions.

## The protocol and its provisos

etcd is an atomic map with revisions and one step per call; a paged scan is a moving position in the key
order and not a snapshot; a sweep's look at a file and its removal are two steps; every step moves a
clock that stamps the files. A record may be dropped at any moment, so a commit that was applied and
reported as failed is covered. `Enabled` is what the code checks. `Proviso` is what it does not check
and relies on:

* a write without a record commits within the grace period of beginning;
* the source of a copy is unchanged when the copy commits, and stays until every sweep that had already
  passed the copy's key has read it;
* the parts a completion read are still recorded when it commits;
* while a move is under way, the destination's own ring puts the object where the mover's does;
* a move's push does not land between a sweep's look at that very file and its removal.

Runs of recorded writes, part uploads, overwrites, deletes, record drops and sweeps need none of these
(`RecordedWritesAreSafe`). `LosingRuns` gives, for each clause of each proviso and each kind of step that
the clause constrains, a run in which exactly that one step breaks it and a committed object ends up
naming a copy that a sweep has taken: for the second proviso these are a copy of a source that is gone,
and a source deleted, overwritten by a write, by a completion or by another copy, or moved.

## Where the code and its comments differ

The model follows the code.

* `PastPrefix` is described as the smallest key after everything with a prefix. Converting the
  incremented byte to a string encodes it as a character, so this holds exactly when that byte stays
  below 0x80 or every byte is 0xff (`PastPrefixExactIff`), and a delimiter can be listed by correctly on
  every keyspace exactly when it is empty or meets the first condition (`AlwaysRightIff`).
* A version listing resumes from the last key or group it showed. That goes wrong for an object whose
  key ends in the delimiter across the end of the prefix, and for one whose key is empty, and only then
  (`MarkerResumesIff`). A client can tell beforehand: it is safe on every keyspace without the empty key
  exactly when no non-empty proper prefix of the delimiter ends the listing's prefix (`AlwaysGoesOnIff`).
* The aws-chunked decoder is described as handing bytes on only once their chunk's signature has been
  checked. It hands them on before; what holds is that it reports the end of the body only after a
  zero-length chunk and an unbroken chain (`CompleteIsChained`, `ForgedChunkRefused`).
* The id of a write is described as what precedes the last six digits of a chunk's id. That is so for
  the first million chunks (`WriteIdIff`); the collector tests for a prefix, which is always right.
* Repair is described as calling a copy unrepairable when no node has it. It also does so when the first
  node that opens the file serves rotten bytes, although another has a good copy
  (`RottenServerHidesGoodCopy`); and when one store of a coded chunk fails, all its missing shards are
  counted so, although the others were placed (`PartialFailureCountsAll`).
* Parity shards are described as fetched only when a data shard is missing. They are always fetched.

## Model

| member | source | states |
|---|---|---|
| `ProtocolTheorems.SweepsTakeOnlyGarbage` | internal/cluster/collect.go:134-307 | in every run from an empty cluster that meets the provisos, whatever the interleaving, no committed object or part names a copy that a sweep has taken |
| `ProtocolTheorems.RecordedWritesAreSafe` | internal/cluster/collect.go:197-307 | the same without any proviso, for any grace and any views of the membership, of all runs of recorded writes, part uploads, overwrites, deletes, record drops, disk losses and sweeps; and no sweep has taken anything of a write whose record stands |
| `ProtocolTheorems.RecordsProtect` | internal/meta/writing.go:80-130 | a copy that a sweep has taken belongs to no write whose record still stands, so what commits under a record is whole |
| `ProtocolTheorems.AcknowledgedStaysDurable` | internal/cluster/cluster.go:585-612 | every chunk of every committed object has, on the nodes its manifest names, the quorum its acknowledgement required, less only what disks lost, through sweeps, copies, completions and moves |
| `ProtocolTheorems.AcknowledgedStaysHeld` | internal/cluster/rebalance.go:84-141 | without disk loss, every chunk of the manifest in force has its quorum of real copies at distinct named positions, whether moves commit, lose the race or fail |
| `ProtocolTheorems.AnyNodeCanBeLost` | internal/cluster/erasure.go:66-74 | so losing any one node then leaves every chunk its quorum less one of copies, or as many shards as reading takes |
| `ProtocolTheorems.NoOrphanParts` | internal/meta/upload.go:71-90 | no part is recorded without its upload |
| `ProtocolRecords.LivingWritesKeepRecords` | internal/cluster/collect.go:273-307 | in every run, a write that began with a record and whose coordinator is in every known view a sweep has used since still has it unless it was dropped by hand, so it may commit as soon as its chunks have their quorum |
| `ProtocolRecords.DeadRecordsGo` | internal/cluster/collect.go:283-307 | once a sweep that read the records with a known membership has gone on to the parts, no record stands whose coordinator was outside that view, unless the write has begun since |
| `ProtocolTheorems.StepKeeps` | internal/cluster/collect.go:214-271 | every step that the code may take and that meets its proviso keeps the invariant: records, parts and objects are read in an order that leaves no chunk unnamed to a sweep |
| `ProtocolSteps.CompleteKeeps` | internal/cluster/upload.go:172-296 | a completion hands chunks from parts to an object while sweeps stand anywhere in either scan |
| `ProtocolSteps.CopyKeeps` | internal/cluster/cluster.go:516-532 | a copy shares its source's chunks safely while sweeps stand anywhere, and records which of them now depend on the source |
| `ProtocolSteps.MoveCommitKeeps` | internal/cluster/rebalance.go:121-133 | committing a move leaves the object named only where its chunks were delivered or already were |
| `ProtocolSteps.SweepObjectPageKeeps` | internal/cluster/collect.go:347-374 | a page of the object scan protects what its manifests name and what the ring says is on its way |
| `LosingRuns.SlowSmallWriteLoses` | internal/cluster/cluster.go:353-365 | for every grace period there is a run in which a single-chunk write that commits after it loses its chunk |
| `LosingRuns.CopyThenDeleteLoses` | internal/cluster/cluster.go:516-532 | a run in which a source deleted between two pages of a scan loses the copy's chunk |
| `LosingRuns.StaleCopyLoses` | internal/cluster/cluster.go:516-532 | a run in which the source is deleted and swept between the copy's read of it and its commit |
| `LosingRuns.OverwrittenSourceLoses` | internal/cluster/cluster.go:273-280 | a run in which a write over the source loses the copy's chunk |
| `LosingRuns.CompletedOverSourceLoses` | internal/cluster/upload.go:293-298 | a run in which a completion over the source does |
| `LosingRuns.CopiedOverSourceLoses` | internal/cluster/cluster.go:516-532 | a run in which another copy over the source does |
| `LosingRuns.MovedSourceLoses` | internal/cluster/rebalance.go:121-133 | a run in which moving the source does |
| `LosingRuns.LateCompletionLoses` | internal/cluster/upload.go:172-296 | a run in which an upload forgotten between the read of its parts and the commit loses the object's chunk |
| `LosingRuns.DisagreeingRingLoses` | internal/cluster/collect.go:347-374 | a run in which a destination whose ring does not know of a move takes what was delivered |
| `LosingRuns.PushBetweenLookAndRemovalLoses` | internal/cluster/collect.go:158-187 | a run in which a push replaces a stray file between a sweep's look at it and its removal |
| `Collector.Collect` | internal/cluster/collect.go:134-195 | a pass runs to its end exactly when the cursor, the records, the parts and the objects could all be read, the cursor saved and every stale record dropped; then it takes exactly the files of its slice that no manifest it read places here, no record it kept protects and that are old enough, counts each file under its own fate and the bytes it freed; otherwise it takes nothing; and it never drops a member's record |
| `Collector.Disk.Sweep` | internal/cluster/collect.go:155-194 | the files left are the old ones less exactly the garbage that could be removed, every file is counted once under its own fate, and bytes freed and bytes left add up to the bytes before |
| `Collector.ReferencePages` | internal/cluster/collect.go:239-269 | a paged scan gathers exactly what its entries place on this node, and fails with any page |
| `Collector.Reference` | internal/cluster/collect.go:347-374 | exactly the ids of the slice that the manifest's placement or the ring's gives this node are added |
| `Collector.PositionsOf` | internal/cluster/collect.go:379-387 | exactly the positions at which the node stands |
| `Collector.Etcd.WritesInFlight` | internal/cluster/collect.go:283-307 | a record whose coordinator is a member, and any record before the membership is known, stays and is listed; with a known membership only members' records are left; and it succeeds exactly when every other one could be dropped |
| `Collector.InFlight` | internal/cluster/collect.go:312-319 | whether one of the writes listed has an id that begins the file's name |
| `Collector.Etcd.NextSlice` | internal/cluster/collect.go:397-413 | the slice the cursor names, any other cursor starting over, with the next one saved first; none, and the cursor as it was, if it cannot be read or saved |
| `Collector.CycleSweepsEverySlice` | internal/cluster/collect.go:397-413 | as many passes in a row as there are slices sweep every slice, and each once |
| `CollectorProtocol.PartPageAdds` | internal/cluster/collect.go:239-254 | what the protocol's page of the part scan adds to a sweep's references is what the pass's page adds |
| `CollectorProtocol.ObjectPageAdds` | internal/cluster/collect.go:256-271 | the same of a page of the object scan, with this node's ring |
| `CollectorProtocol.RecordsMatch` | internal/cluster/collect.go:283-307 | the records a pass is left with are those the sweep protects by, and the rest are those it must drop |
| `CollectorProtocol.ProtectedIff` | internal/cluster/collect.go:312-319 | among ids of one length, the prefix test protects exactly the files of the writes recorded |
| `CollectorProtocol.SweepProtects` | internal/cluster/collect.go:214-271 | after any number of pages, each in the state it was read in, the sweep's references and records are exactly what the pass gathered |
| `CollectorProtocol.PassIsSweep` | internal/cluster/collect.go:134-195 | so a pass takes exactly the files that the sweep may condemn and whose removal succeeds, whatever happened between one read and the next |
| `CollectorGarbage.PassTakesGarbage` | internal/cluster/collect.go:134-195 | a pass takes exactly the removable files of its slice that are old enough, at which no manifest it read and no ring it asked has this node, chunk by chunk and position by position, and whose name begins with no recorded write of a member |
| `CollectorGarbage.CycleTakesAllGarbage` | internal/cluster/collect.go:397-413 | thirty-two passes in a row, from any cursor, rid a disk of exactly the files that the pass over their letter has no reason to keep, for every letter of the ids' alphabet |
| `CollectorGarbage.PlacedIff` | internal/cluster/collect.go:347-374 | a file belongs to a node exactly when some chunk is replicated on it, or has its shard at a position that is the node's |
| `CollectorGarbage.FateIff` | internal/cluster/collect.go:158-187 | what is said of a file: referenced, or else being written, or else young, or else not removable |
| `CollectorGarbage.TalliesAre` | internal/cluster/collect.go:158-194 | each counter is the number of files of the slice of which that is said |
| `CrcCombine.CombineCrc32C` | internal/object/crc.go:29-69 | for all byte strings, combining their CRC-32C values gives that of their concatenation |
| `CrcCombine.CombineCrc32` | internal/object/crc.go:71-103 | the same for CRC-32 |
| `CrcCombine.CombineCrc64Nvme` | internal/object/crc.go:109-143 | the same for CRC-64/NVME |
| `CrcCombine.CombinedIsConcatenation` | internal/object/crc.go:29-177 | for every polynomial and all byte strings, the combination equals the bit-at-a-time checksum of the concatenation, with inversion before and after |
| `CrcCombine.Combine` | internal/object/crc.go:29-69 | the loop over two alternating matrices appends exactly as many zero bytes as the second payload has |
| `CrcCombine.Times` | internal/object/crc.go:145-154 | the shifting loop is the product of a matrix and a word |
| `CrcCombine.SquareInto` | internal/object/crc.go:156-160 | the square of a matrix, column by column |
| `CrcCombine.SquaredAppends` | internal/object/crc.go:156-160 | squaring the operator that appends n zero bits gives the one that appends 2n |
| `CrcCombine.TimesApplies` | internal/object/crc.go:145-154 | multiplying by such a matrix appends its zero bits to any register |
| `Crc.ChecksumConcat` | internal/object/crc.go:22-28 | the checksum of a concatenation is the first checksum shifted past the second payload, plus the second |
| `CrcCheck.CheckValues` | internal/object/crc.go:10-20 | the checksums of "123456789" are the published ones: 0xe3069283, 0xcbf43926 and 0xae8b14860a799888 |
| `CrcCheck.CastagnoliIsGenerator` | internal/object/crc.go:39-39 | the polynomial is the CRC-32C generator as its standard prints it, exponent by exponent |
| `CrcCheck.IeeeIsGenerator` | internal/object/crc.go:77-77 | the same for CRC-32 |
| `CrcCheck.NvmeIsGenerator` | internal/object/crc.go:10-14 | the same for CRC-64/NVME |
| `Ring.New` | internal/ring/ring.go:51-60 | the members' virtual nodes, all of them and no others, ordered by position |
| `Ring.Owners` | internal/ring/ring.go:72-90 | the first n distinct nodes of one lap clockwise from the partition's start |
| `Ring.LowerBound` | internal/ring/ring.go:76-77 | the first virtual node at or after a position |
| `Ring.PartitionIsSpan` | internal/ring/ring.go:31-65 | the partition of a 64-bit position is its top byte, every partition is some position's, and a partition's keys are exactly those from its start on the ring up to the next one's |
| `Ring.FirstOwner` | internal/ring/ring.go:66-90 | a partition's first owner is the node of the first virtual node at or after its start, and of the lowest one if there is none |
| `Ring.OwnersAreEnough` | internal/ring/ring.go:66-90 | owners are distinct members, and exactly n of them or all |
| `Ring.OwnersGrow` | internal/cluster/repair.go:143-146 | the owners for a smaller n are the first of those for a larger |
| `Ring.RingDeterminedIffNoTies` | internal/ring/ring.go:51-60 | the members determine the ring, whatever order they are listed in and however the sort treats ties, exactly when no two share a position |
| `RingTies.OwnersDeterminedIff` | internal/ring/ring.go:51-90 | for any list of members, a partition's owners are the same whatever order the members are listed in and however the sort treats ties, exactly when no two members are first met, clockwise from the partition's start, at one position |
| `RingTies.OwnersAreNearest` | internal/ring/ring.go:66-90 | owners are the members nearest clockwise from the partition's start, nearest first |
| `RingTies.JoinMovesOnlyToNewcomer` | internal/ring/ring.go:51-90 | when a node joins and no tie decided the owners before, the owners with it struck out are the first of the owners before, at most one gives way, and a partition it did not get keeps its owners in order; leaving is the converse |
| `Prefix.StepPast` | internal/meta/meta.go:172-179 | the loop computes the step that the next row characterises |
| `Prefix.PastPrefixExactIff` | internal/meta/meta.go:169-179 | the step separates the keys beyond a prefix from all others exactly when the incremented byte stays below 0x80, or when every byte is 0xff and nothing lies beyond |
| `Prefix.AfterIsNext` | internal/meta/meta.go:165-167 | nothing lies between a key and the one after it |
| `ListingTheorems.ScanIsLive` | internal/meta/meta.go:247-265 | a scan returns the keys with the prefix from the position on, in order and up to the limit |
| `ListingTheorems.SameGroupIff` | internal/cluster/list.go:117-127 | a key is in a group exactly when it begins with it |
| `ListingTheorems.GroupOfIff` | internal/cluster/list.go:117-127 | a key's group is its shortest front that reaches past the prefix and ends in the delimiter |
| `Listing.List` | internal/cluster/list.go:50-112 | the nested loops give the objects, groups and resume point of one page |
| `ListingTheorems.PageIsNextItems` | internal/cluster/list.go:50-112 | for every keyspace, prefix, steppable delimiter, position and positive limit, a page holds the next items of the grouping up to its limit, has a resume point exactly when more remain, and that point continues with exactly the rest |
| `ListingTheorems.FollowedIsWhole` | internal/cluster/list.go:24-34 | following resume points to the end reports the whole grouping, every page but the last full |
| `ListingTheorems.ItemsAreTheGrouping` | internal/cluster/list.go:10-22 | the grouping has each ungrouped key and each group exactly once, in order |
| `ListingTheorems.AlwaysRightIff` | internal/cluster/list.go:97-106 | listing by a delimiter is right on every keyspace exactly when it is empty or can be stepped over exactly |
| `Versions.LastReportedIsLast` | internal/s3/list.go:338-349 | the later of the ends of the two lists is the last thing reported |
| `Versions.MarkerResumesIff` | internal/s3/list.go:246-267 | resuming from the last thing shown is resuming from the page's own point, exactly unless it is an object whose key ends in the delimiter across the end of the prefix, or the object with the empty key |
| `Versions.MarkerResumes` | internal/s3/list.go:246-267 | so the two agree on every keyspace and page when the delimiter cannot straddle the end of the prefix and the empty key is not listed |
| `Versions.StraddlingKeyHidesOthers` | internal/s3/list.go:256-266 | for every prefix and delimiter that can straddle, a bucket of two keys of which the second is never shown |
| `Versions.AlwaysGoesOnIff` | internal/s3/list.go:246-267 | listing by markers goes on with exactly the rest, for every keyspace, position and limit, exactly when no non-empty proper prefix of the delimiter ends the prefix, and the empty key is absent or not under the prefix |
| `Versions.MarkersShowTheWhole` | internal/s3/list.go:234-333 | and then sending back each page's marker, encoded or not, shows the pages that following positions shows, which add up to the whole grouping |
| `Versions.EscapeKey` | internal/s3/list.go:363-374 | the loop computes the escaped form that the next row is about |
| `Versions.EscapeRoundTrip` | internal/s3/list.go:351-374 | unescaping an escaped key gives the key |
| `Versions.EscapeByteIs` | internal/s3/list.go:363-374 | letters, digits and -_.~/ stand for themselves, and every other byte for a percent sign and two upper-case digits |
| `Versions.EscapedConcat` | internal/s3/list.go:363-374 | a key is escaped byte by byte |
| `Versions.HexValueIs` | internal/s3/list.go:249-254 | digits are read back in either case |
| `Versions.UnescapedPlain` | internal/s3/list.go:249-254 | a marker without percent signs, plus signs and all, is read as it is |
| `ObjectWrite.Write` | internal/object/object.go:150-195 | a write succeeds exactly when the source ends cleanly and every request is granted; its requests, in order, are those for the pieces of the body, or the first of them if it fails; and then, on any store they are carried out on, its references, all different, find chunks of the sizes and sums they state that join to the body |
| `ObjectWrite.WrittenIsFound` | internal/object/object.go:180-195 | carrying out the requests puts each piece under its own name, whatever was there |
| `ObjectWrite.OthersUntouched` | internal/object/object.go:157-159 | and touches nothing whose name does not begin with the write's id |
| `ObjectWrite.NamesSpelt` | internal/object/object.go:45-52 | a chunk's name is its write's id and its index in six digits, and a shard's its chunk's, an "s" and two digits |
| `ObjectWrite.CutIsBody` | internal/object/object.go:132-195 | the pieces joined are the body, all but the last exactly full and none empty |
| `ObjectTheorems.WrittenReadsBack` | internal/object/object.go:132-280 | looked up by their names in whatever store the requests were carried out on, the chunks of a write fit their references, and every window of them is that window of the body |
| `ObjectTheorems.AllGoodIff` | internal/object/object.go:248-280 | of a window only the chunks that it touches have to verify |
| `ObjectWrite.ReadChunk` | internal/object/object.go:200-222 | the next chunk whatever the size of the buffer, failing exactly when the source breaks off inside it |
| `ObjectWrite.ReadOrEnd` | internal/object/object.go:226-232 | the buffer is filled unless the source ends, which is no error |
| `ObjectWrite.Upload.Commit` | internal/cluster/cluster.go:353-385 | a record is asked for before the first full chunk, and nothing is stored if it is refused |
| `ObjectWrite.MarkedBeforeFirstChunk` | internal/cluster/cluster.go:353-365 | whatever a write has asked for when it stops, one of two chunks or more asked for its record before any chunk, and the record's id begins every chunk's |
| `ObjectWrite.WriteIdIff` | internal/object/object.go:50-62 | a chunk's name gives back its write's id exactly for the first million chunks, and begins with it always, as do its shards' |
| `ObjectWrite.NamesDiffer` | internal/object/object.go:183-188 | no two chunks of a write share a name, and no two shards of a chunk |
| `ObjectWrite.RecordNamesItsOwn` | internal/cluster/collect.go:312-319 | testing for a prefix finds exactly the write's own chunks and shards |
| `ObjectRead.ReadRange` | internal/object/object.go:248-280 | exactly the window is delivered if and only if it is in bounds, every chunk it touches verified to its end, the chunks cover it and the connection took it; on any failure of a non-empty window strictly fewer bytes than promised |
| `ObjectRead.ReadWindow` | internal/object/object.go:293-306 | all of a chunk's window goes out when the chunk verified, and at least one byte less otherwise, however its bytes arrive |
| `ObjectRead.HeldBack.Write` | internal/object/object.go:320-334 | everything but the latest byte has been passed on |
| `ObjectRead.HeldBack.Release` | internal/object/object.go:336-343 | the byte held back is passed on once |
| `Multipart.Assemble` | internal/cluster/upload.go:176-291 | an object is made exactly when parts are named, in order, each stored and as named, and every declared checksum is that of the parts together; then every ETag named, without its quotes, is empty or the stored part's, all parts share nodes and coding, every stored ETag decodes, and each part is listed with its number, size and checksums; no parts, parts out of order and a wrong checksum each give their own error |
| `Multipart.FaultDecides` | internal/cluster/upload.go:191-226 | the first part that is not as named decides the error, by the first thing wrong with it: repeated, not stored, another ETag, another placement, an ETag that does not decode |
| `Multipart.TrimQuotesIff` | internal/cluster/upload.go:202-202 | an ETag without its quotes is the one string that has none at either end and that quotes alone surround |
| `MultipartTheorems.AcceptedIff` | internal/cluster/upload.go:176-291 | if parts tell the truth about their bytes, a completion is accepted exactly when it names parts, strictly ascending, each as named, and declares only checksums of their bytes together, by the polynomial of each name |
| `MultipartTheorems.DigestsInOrder` | internal/cluster/upload.go:187-228 | the object's ETag is made of the parts' digests, each in its place |
| `Multipart.CompleteUpload` | internal/cluster/upload.go:156-314 | a completion of an upload that is gone is answered with what it produced if that is remembered; one refused changes nothing; otherwise the object, with the upload's content type and metadata, is committed first, and the upload remembered as completed before it is forgotten |
| `MultipartTheorems.CompletedDescribes` | internal/cluster/upload.go:217-265 | if every part tells the truth about its bytes, so does the object: its bytes are the parts' in order, and it has a checksum exactly when every part does, that of the whole |
| `MultipartTheorems.PartWindow` | internal/s3/s3.go:1060-1071 | the window of the part with that number, or none; without parts, part 1 is the whole object |
| `MultipartTheorems.WindowsTile` | internal/s3/s3.go:1054-1071 | the windows of a completed object tile it end to end, each holding its own part's bytes |
| `MultipartTheorems.WindowReadsPart` | internal/s3/s3.go:1060-1071 | asking for a number reads back the part that was named with it |
| `ChunkedReader.Reader.Read` | internal/sigv4/chunked.go:77-111 | a read delivers the next bytes of what the body decodes to, reports the end only where that is complete, and repeats an error for ever; if the input's end arrives with its last bytes, a bad signature there shows as a body cut short |
| `ChunkedReader.Reader.Next` | internal/sigv4/chunked.go:114-157 | the reader moves to the next chunk, or past the last one and its trailers, as the decoding demands |
| `ChunkedReader.Reader.EndOfChunk` | internal/sigv4/chunked.go:173-183 | a chunk is accepted when unsigned or signed as the chain demands, and becomes the link the next one is checked against |
| `ChunkedReader.ReadAll` | internal/sigv4/chunked.go:77-111 | for every sequence of buffer sizes and arrivals, reading to the end yields the bytes the body decodes to, and ends as it does but for that one error |
| `ChunkedTheorems.FramedReadBack` | internal/sigv4/chunked.go:18-25 | decoding undoes framing, for every body and every split into non-empty chunks, signed or not |
| `ChunkedTheorems.TrailersReadBack` | internal/sigv4/chunked.go:191-207 | trailers are read back in order as name and value, the names in canonical form |
| `ChunkedTheorems.TrailerFound` | internal/s3/s3.go:409-443 | asking for a trailer, in whatever case, gives the value that was sent first under that name |
| `ChunkedTheorems.CompleteIsChained` | internal/sigv4/chunked.go:113-183 | a body is complete only if it spells out chunks up to a zero-length one, its bytes are theirs, and every signature follows from the one before |
| `ChunkedTheorems.ForgedChunkRefused` | internal/sigv4/chunked.go:173-183 | a chunk with any other signature ends the body in a mismatch, whatever follows |
| `ChunkedText.CutShort` | internal/sigv4/chunked.go:94-128 | a body that ends between chunks or inside one is an error, and what was there of it has been handed on |
| `ChunkedText.Framing` | internal/sigv4/chunked.go:18-25 | the characters the framing is made of |
| `ChunkedText.SizeSpelt` | internal/sigv4/chunked.go:130-134 | a size is read in either case, with a plus sign or without, up to the greatest 63-bit one, and never negative |
| `ChunkedText.BadHeadRefused` | internal/sigv4/chunked.go:130-144 | a size that is no number, and in a signed body a chunk without a signature, is malformed |
| `ChunkedText.ExtensionIgnored` | internal/sigv4/chunked.go:130-145 | in an unsigned body what follows the size is ignored |
| `ChunkedText.LongLineRefused` | internal/sigv4/chunked.go:210-222 | a framing line with its end is at most 1024 bytes long |
| `ChunkedText.LastLine` | internal/sigv4/chunked.go:210-222 | the end of the input ends a line, unless the connection broke there |
| `ChunkedText.NoColonRefused` | internal/sigv4/chunked.go:201-204 | a trailer without a colon is malformed |
| `ChunkedText.TrailersStop` | internal/sigv4/chunked.go:193-200 | trailers end with the input and with a line that cannot be read |
| `ChunkedText.SpaceIff` | internal/sigv4/chunked.go:205-205 | of the encoded characters exactly the white space of Unicode is trimmed at the front |
| `ChunkedText.SpaceBeforeIff` | internal/sigv4/chunked.go:205-205 | and at the end |
| `ChunkedText.TrimmedIsBare` | internal/sigv4/chunked.go:205-205 | what is left begins and ends with none |
| `ChunkedText.SpacedTrailer` | internal/sigv4/chunked.go:201-205 | a space after the colon is no part of the value |
| `ChunkedText.TitleCaseAt` | internal/sigv4/chunked.go:205-205 | names are kept with a capital at the start and after each hyphen, and small letters elsewhere |
| `Walk.Walker.Walk` | internal/cluster/repair.go:103-134 | of the objects that are there throughout, whatever else comes and goes between reads, a completed walk visits every one past its cursor and starts over, and one cut short, by a failed read or a failed save too, has visited every one up to the cursor it saved; a steady keyspace and no failure make it complete |
| `Walk.TwoCompletedWalksVisitAll` | internal/cluster/repair.go:96-134 | from any cursor and however walks are cut short, once two have completed every object that stayed has been visited since the first |
| `Repair.Disks.RepairObject` | internal/cluster/repair.go:155-187 | each copy the manifest promises has the fate that the survey, the node that serves the chunk and the push decide; exactly the copies so rebuilt are added, each copy is counted under its own fate; and the object is abandoned exactly when the node cannot survey its own disk |
| `Repair.Conserved` | internal/cluster/repair.go:155-187 | restored copies are the rebuilt ones, unrepairable ones those that are stuck, and with those the survey found they are the copies checked; of coded objects too |
| `Repair.ShareAt` | internal/cluster/repair.go:160-185 | a copy is away if its node is no member, held if that node says it has a file, rebuilt if the chunk is served well and the push succeeds, and otherwise stuck |
| `Repair.LocalFirstIs` | internal/cluster/cluster.go:648-657 | a node tries itself first if it is named, in exchange for the one that was first |
| `Repair.OwnCopyServes` | internal/cluster/cluster.go:624-646 | so a node with a file of its own serves from it, good or not |
| `Repair.UnrepairableIff` | internal/cluster/repair.go:155-187 | nothing is called unrepairable exactly when every missing copy had a node serving it well and was taken |
| `Repair.RepairMakesWhole` | internal/cluster/repair.go:71-76 | when no survey and no push fails and each chunk is served well, every member named then holds every chunk, and another pass restores nothing and changes nothing |
| `Repair.RottenServerHidesGoodCopy` | internal/cluster/repair.go:299-321 | a copy that could have been rebuilt from a good one is counted as unrepairable, because the first node to open the file serves it rotten |
| `RepairShards.RepairObject` | internal/cluster/repair.go:229-297 | each position of each chunk is counted under the fate that the survey decides; the right shard is written exactly where it was missing and taken, of the chunks that can be read; and nothing else changes |
| `RepairShards.ShareAt` | internal/cluster/repair.go:269-294 | a position is away if its node is no member, held if the survey found its shard there, rebuilt if the whole chunk is mended, and otherwise stuck |
| `RepairShards.WritesOnlyMissing` | internal/cluster/repair.go:269-288 | nothing is written but missing shards of members, in their places, to nodes that take them |
| `RepairShards.UnrepairableIff` | internal/cluster/repair.go:285-294 | nothing is called unrepairable exactly when each chunk misses nothing, or can be read and has every missing shard taken |
| `RepairShards.RightAfterwards` | internal/cluster/repair.go:269-297 | exactly these positions of a chunk are right afterwards: those that were, and, if it could be read, the missing ones whose node took the shard |
| `RepairShards.PartialFailureCountsAll` | internal/cluster/repair.go:288-292 | when one store of a chunk fails, all its missing shards count as unrepairable, though each that was taken is now right |
| `RepairShards.RepairMakesWhole` | internal/cluster/repair.go:222-297 | when nothing fails, every member has every shard of every chunk, right wherever none had been found, and the next pass restores and writes nothing |
| `Erasure.Encode` | internal/cluster/erasure.go:33-75 | with a usable scheme and as many owners as shards, a chunk is acknowledged exactly when one shard more than reading needs was placed, and then that many positions are right; otherwise it is refused; and no other file changes |
| `Erasure.ShardSize` | internal/cluster/erasure.go:23-25 | the chunk split and rounded up: the shards hold it, with less than one byte each to spare |
| `Erasure.Decode` | internal/cluster/erasure.go:91-114 | a chunk is read back exactly when its scheme is usable, its placement complete and as many shards as it has data shards can be read, and then rightly |
| `Erasure.ReadableIff` | internal/cluster/erasure.go:118-139 | a position can be read exactly when its node answers and its file there is the right shard |
| `Erasure.TakenIff` | internal/cluster/erasure.go:46-63 | a shard is placed exactly when its own owner takes it at its own position |
| `Erasure.Disks.Gather` | internal/cluster/erasure.go:118-139 | each empty slot in the range gets its shard if that can be read, and no other slot changes |
| `Erasure.RestoreShards` | internal/cluster/erasure.go:184-203 | rebuilding succeeds exactly when enough shards can be read and every store succeeds; whenever enough can be read, exactly the shards that are taken are written, and otherwise nothing |
| `Erasure.MoveShards` | internal/cluster/rebalance.go:196-224 | a move succeeds exactly when nothing has to move, or enough shards can be read and every changed position takes its shard; the old placement stays as good as it was, and after success the new one has every right position the old one had and every changed one |
| `Erasure.SurvivesOneLoss` | internal/cluster/erasure.go:66-74 | an acknowledged chunk can be read after the loss of any one shard |
| `Erasure.SurvivesOneNode` | internal/cluster/erasure.go:66-74 | and while any one node is down |

## Left out

- HTTP handlers, XML, authentication and error mapping, and the choice among the checksums a client may send.
- The etcd client, leases and watches: a node's view of the membership is any set, at any time.
- SHA-256, HMAC, MD5 and the Reed–Solomon arithmetic: parameters of which only the defining property is used (`Erasure.MirrorIsSeparable` gives a code that has it). That a CRC tells a good chunk or shard from any other is assumed where it is used.
- File I/O: a chunk appears on a disk whole and verified, with its modification time the moment it appears, or not at all. Clocks do not differ between nodes.
- Store.Uploads: its paging resumes before the marker's own record, so that each upload is listed once is not a law of this code.
- Which node repairs an object: repair leaves each to the first owner of its partition and skips the others' (`Ring.OwnersGrow` says that the first owner is one of the owners).
- Pacing, logging, background loops and configuration.
- Multipart.CompleteUpload: failures to reach etcd other than that of the commit end the request with that error before anything is changed, or are only logged after the commit, and are not modelled.
- ObjectWrite.Write: the checksum put in each chunk's reference is a function it is given, which in the code is the CRC-32C that `Crc.Checksum` models. Errors that wrap the end of the input count as its end, as in the code, so what it says of a source that breaks off is said of other errors.
