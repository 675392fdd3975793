# Secure log: a verified model

This project models the tamper-evident log of `crates/secure-log`, the file-backed store under it, and
the garbage collectors of the witness log in the file and SQLite stores, and proves what the log's
checkers do and do not establish. Relative to what a reader trusts, and short of a SHA-256 collision or a
preimage of the all-zero digest that is handed out explicitly:

- **One entry hash.** A stream that `verify_chain` accepts from seqno 1 is bound, entry by entry, by the
  hash of its last entry (`Chain.VerifyChainBinds`).
- **A recorded head, or an external witness.** A store that `check_rollback` accepts, or that confirms a
  witness submission, is bound in its checkpoints from the stream's first segment to the recorded one
  (`RollbackCheckBinds`, `ConfirmedSubmissionBinds`).
- **Not the entries, by that alone.** No checker of checkpoints compares the two digests in a segment row
  with the entries. `RewrittenHistory` gives the exact condition under which the rollback check accepts
  other entries, and entries that pass every check of chains and checkpoints although they were
  rewritten or cut off.
- **The entries, by one call more.** If also an inclusion proof of the recorded end verifies against the
  root in the store's own segment row, the entries up to that end are bound, wherever the proof comes from
  and however many leaves the store claims (`TamperEvidence.ProvenHistoryIsBound`). Entries after the
  recorded end are bound by nothing stored.
- **A leaf, if entries are not node sized.** The tree has no 0x00/0x01 prefixes, so an interior node, the
  hash of 64 bytes, passes for a leaf (`NodePassesForEntry`). What an accepted proof says about an entry
  (`VerifiedEntryIsARow`) therefore needs encodings of another length than 64 bytes; a 36-byte session id
  alone makes every encoding longer (`LongEntriesAreNotNodeSized`).

The layers, from the bottom up:

- **Encoding.** `Cbor` writes out the heads of RFC 8949 and a strict decoder for them. `Encoder` builds
  entries and checkpoints as twelve-item arrays and proves both injective, prefix-free and disjoint.
- **Merkle trees.** `MerkleSpec` states the tree and the audit path of sections 2.1 and 2.1.1 of RFC 6962
  by their top-down recursion, without the 0x00/0x01 hash prefixes, which the code does not have either,
  and with leaves taken unchanged. `MerkleLevels` relates it to building by levels, `MerkleBinding` says what a
  root and a path bind, and `Merkle` has the bottom-up loops of the code, proved against them.
- **Tables.** `Tables` is the store behind the `SecureLogStore` trait as a value, with its queries as a
  filter followed by a stable sort or a maximum.
- **Chains.** `HashChain` proves once that the tip of a hash chain binds the whole chain. `Chain`
  (`verify_chain`) and `Checkpoints` (the recomputed checkpoint hashes) use it.
- **Engine.** `Engine` gives every operation of `NativeSecureLog` as a function of the tables.
  `Invariants`, `Preservation` and `Runs` state what every reachable store satisfies and prove that every
  operation keeps it, for any number of processes, streams, segments, restarts and signatures. The
  `...Theorems` modules and `TamperEvidence` draw the consequences; `Guarantees` and `OperationTheorems` sum
  them up. `CheckpointAnswers` and `PayloadAnswers` say what each check and each opening answers in any
  store, accepted or not, and `KeyDerivation` what the derived keys and metadata tags separate.
- **Classes.** `Native.NativeSecureLog` runs the operations step by step over `FileStores.FileStore` and
  a head file, each method proved equal to its engine function. `FileStores` keeps the tables in memory equal to
  the replay of the log on disk. `SqliteWitnessLog` is the second garbage collector.
- **Concurrency.** `Interleaving` takes the three store calls of an append apart and interleaves them,
  writers that die in the middle included. `ConcurrentClosing` adds the five store calls of closing a
  segment, together with signing and stream changes; `ConcurrentTheorems` shows that all results about
  reachable states hold after any interleaving in which no stream has two appenders or two closers at
  once, and what two closers of one stream do.

SHA-256, HKDF, the AEAD and the signer are arbitrary but fixed functions. About SHA-256 and HKDF nothing
is assumed. The AEAD opens what it sealed and adds at least sixteen bytes; the signer's verification
accepts what its signing returned. Binding results take the form "equal, or this value is a genuine
break", where a `Break` is an explicit collision or an explicit preimage of the all-zero digest, computed
from the two stores. That a payload does not open where it should not takes the form "it fails to
decrypt, or opening it is a genuine `Forgery`": the same ciphertext opened under other, given associated
data. Timestamps, nonces, signer entropy and session ids are inputs.

`Runs.StateOk` is what "reachable" stands for in the table: it holds of a fresh store, every operation
keeps it (`Runs.ReachableStateOk`), and every method of `NativeSecureLog` keeps it as `Sound`.

Six things the proofs brought out:

- The checkpoint checks see nothing of the entries but the boot and session ids at the ends of the
  segments. Exactly the entries that agree on those pass `check_rollback`
  (`RewrittenHistory.RollbackAcceptsEntriesIff`), and `RewrittenPayloadPasses` is a log with one signed
  and recorded segment whose one payload is replaced. `verify_chain` up to the recorded end binds them
  exactly when the last hash is the one the segment row names
  (`TamperEvidence.AcceptedHistoryIsBoundIff`), a comparison the code does not make.
- An accepted inclusion proof need not be one of an entry, nor of a leaf: the hash of two leaves is
  accepted with the path above it. Proofs over entries that are not node sized are sound.
- Two closers of one stream that both read before either inserts store two segments with the same bounds
  (`ConcurrentTheorems.TwoClosersOverlap`), and once the first is signed the checkpoint chain is reported as
  drifted (`TwoClosersDrift`). A stream's segments are sound at every moment exactly when each was
  inserted with no other in between since its closer's first read (`ConcurrentClosing.AlwaysOkIff`). The
  trait leaves it to callers to serialise access.
- A sealed payload does not always open again. `append_encrypted` derives the key from the id the
  stream's open segment is expected to get, one more than the stream's last segment, while ids are
  global. When another stream closes a segment in between, the entry is later looked up under another
  id. `PayloadTheorems.PayloadOpensIff` gives the exact condition over any run, `CloseKeepsPayloadIff` the one
  a caller can check before closing, and `CrossedClosesHidePayload` the concrete run.
- `verify_against_witness` is documented to answer `Ok(false)` for an older ancestor. It never does: the
  comparison is at the submission's own segment (`WitnessSubmissions.WitnessAnswers`). The model
  follows the code.
- Deprecation is described as final, but `create_stream` of the same name lifts it. A stream refuses
  appends exactly when the last word on it is a deprecation (`StreamTheorems.AppendRefusedIff`).

## Model

| member | source | states |
|---|---|---|
| `Cbor.HeadBytes` | crates/secure-log/src/encoder.rs:45-55 | the initial byte and the argument bytes of every head, most significant first |
| `Cbor.HeadDecodes` | crates/secure-log/src/encoder.rs:45-55 | the decoder of RFC 8949 heads undoes the encoder, whatever follows |
| `Cbor.HeadIsCanonical` | crates/secure-log/src/encoder.rs:45-55 | the decoder accepts shortest heads only: what it reads is what the encoder writes |
| `Cbor.ArrayDecodes` | crates/secure-log/src/encoder.rs:52-55 | arrays of integers, byte strings and text strings decode to their items |
| `Cbor.ArrayIsCanonical` | crates/secure-log/src/encoder.rs:45-55 | every accepted array is the one encoding of its items |
| `Encoder.SeverityParses` | crates/secure-log/src/model.rs:62-116 | parsing the name of a severity gives the severity |
| `Encoder.SeverityParseIsStrict` | crates/secure-log/src/model.rs:92-116 | only the exact lower-case name of a severity parses |
| `Encoder.EntryLayout` | crates/secure-log/src/encoder.rs:71-98 | the bytes of an entry, field by field in the contract's order |
| `Encoder.CheckpointLayout` | crates/secure-log/src/encoder.rs:100-119 | the bytes of a checkpoint, field by field in the contract's order |
| `Encoder.EntryDecodes` | crates/secure-log/src/encoder.rs:71-98 | a decoder recovers the entry from its encoding followed by any bytes |
| `Encoder.EntryDecoderIsStrict` | crates/secure-log/src/encoder.rs:71-98 | bytes that decode to an entry start with that entry's one encoding |
| `Encoder.EntryEncodingIsPrefixFree` | crates/secure-log/src/encoder.rs:71-98 | no entry encoding is a proper prefix of another, and equal ones mean equal entries |
| `Encoder.EntryEncodingIsInjective` | crates/secure-log/src/encoder.rs:71-98 | equal bytes mean equal entries, field by field |
| `Encoder.CheckpointDecodes` | crates/secure-log/src/encoder.rs:100-119 | a decoder recovers the checkpoint from its encoding followed by any bytes |
| `Encoder.CheckpointDecoderIsStrict` | crates/secure-log/src/encoder.rs:100-119 | bytes that decode to a checkpoint start with that checkpoint's one encoding |
| `Encoder.CheckpointEncodingIsPrefixFree` | crates/secure-log/src/encoder.rs:100-119 | no checkpoint encoding is a proper prefix of another |
| `Encoder.CheckpointEncodingIsInjective` | crates/secure-log/src/encoder.rs:100-119 | equal bytes mean equal checkpoints |
| `Encoder.EntriesAreNotCheckpoints` | crates/secure-log/src/encoder.rs:71-119 | no entry encoding equals, or starts, a checkpoint encoding, or the other way round |
| `MerkleLevels.NextLevelKeepsMTH` | crates/secure-log/src/merkle.rs:34-45 | pairing neighbours and promoting an unpaired last node keeps the RFC 6962 root |
| `MerkleLevels.PathByLevels` | crates/secure-log/src/merkle.rs:58-89 | the audit path is this level's sibling, if any, and then the path one level up |
| `MerkleSpec.PathFoldsToMTH` | crates/secure-log/src/merkle.rs:3-11 | folding the audit path of any leaf of any list gives the root |
| `MerkleBinding.RootBindsLeaves` | crates/secure-log/src/merkle.rs:23-52 | leaf lists of one length with one root are equal, or `RootCollision` is a collision |
| `MerkleBinding.FoldBindsPath` | crates/secure-log/src/lib.rs:224-239 | paths with the same directions that fold to one digest are equal, leaf included, or `PathCollision` is a collision |
| `MerkleBinding.AcceptedPathIsHonest` | crates/secure-log/src/lib.rs:220-247 | an accepted path with the directions of index i carries leaf i and its true siblings, or a collision is extracted |
| `MerkleBinding.AcceptedEntryIsALeaf` | crates/secure-log/src/lib.rs:220-247 | over leaves that are hashes of messages not 64 bytes long, any accepted path, whatever its directions and length, from the hash of such a message starts at a leaf, or `Descent` is a collision |
| `MerkleBinding.RootBindsMessages` | crates/secure-log/src/merkle.rs:23-52 | over such leaves one root gives one leaf list, whatever the two lengths, or `TreeCollision` is genuine |
| `Merkle.HashPair` | crates/secure-log/src/merkle.rs:47-52 | fills a 64-byte buffer with left and right and hashes it |
| `Merkle.BuildNextLevel` | crates/secure-log/src/merkle.rs:34-45 | the loop computes the level above |
| `Merkle.BuildRoot` | crates/secure-log/src/merkle.rs:23-32 | the loop returns the RFC 6962 root of the leaves (the zero digest for none) after exactly ceil(log2 n) rounds |
| `Merkle.BuildProof` | crates/secure-log/src/merkle.rs:58-89 | the loop returns the root and the RFC 6962 audit path, and the path folds to the root |
| `Merkle.VerifyInclusionProof` | crates/secure-log/src/lib.rs:220-247 | accepts exactly the proofs whose path folds to the expected root |
| `Tables.RangeMembers` | crates/secure-log-store-file/src/lib.rs:413-429 | a range query returns exactly the stream's rows within the bounds |
| `Tables.RangeIsSorted` | crates/secure-log-store-file/src/lib.rs:413-429 | in seqno order |
| `Tables.RangeSplits` | crates/secure-log-store-file/src/lib.rs:413-429 | a range is its part up to any middle followed by the rest, in any store |
| `Sorting.SortSorts` | crates/secure-log-store-file/src/lib.rs:426-426 | the stable sort sorts and permutes |
| `HashChain.TipBindsChain` | crates/secure-log/src/native.rs:965-1019 | two hash chains with one tip are equal whatever their lengths, or `ChainBreak` is genuine |
| `Chain.CheckRowsAcceptsLinked` | crates/secure-log/src/native.rs:977-1016 | the loop of `verify_chain` accepts rows exactly when each links to the one before and hashes to its digest |
| `Chain.VerifyChainAccepts` | crates/secure-log/src/native.rs:934-1019 | in any store, acceptance means: rows in range, linked, the first to the last earlier row of the stream |
| `Chain.VerifyChainReportsFirst` | crates/secure-log/src/native.rs:977-1016 | otherwise the first row that fails is reported: a digest of a wrong length, a wrong link, or contents that do not hash to the stored digest |
| `Chain.ExpectedPrevIsBelow` | crates/secure-log/src/native.rs:957-973 | the predecessor lookup finds the last row below the range, wherever the first row lies |
| `Chain.VerifyChainComposes` | crates/secure-log/src/native.rs:934-1019 | two adjacent ranges with rows are both accepted exactly when their union is |
| `Chain.VerifyChainBinds` | crates/secure-log/src/native.rs:934-1019 | if two stores pass `verify_chain` from seqno 1 and end in one entry hash, their rows are equal field by field, even for different ranges, or the break is genuine |
| `Checkpoints.RecursionIsFold` | crates/secure-log/src/native.rs:681-728 | on any store with unique segment ids the mutual recursion, which terminates, equals the left fold over the stream's segments, errors included |
| `Checkpoints.PreviousOfUnknownIsFold` | crates/secure-log/src/native.rs:681-705 | for an id the stream does not have, the predecessor hash is the fold of the whole list |
| `Checkpoints.CheckpointHashBinds` | crates/secure-log/src/native.rs:713-728 | two stores that compute one checkpoint hash hold the same checkpoint fields back to the first segment, or the break is genuine |
| `Crypto.SealPayload` | crates/secure-log/src/crypto.rs:232-250 | the sealed bytes start with the nonce and open to the plaintext under their own key and associated data, and under no other associated data without a forgery |
| `Crypto.SealedOpens` | crates/secure-log/src/crypto.rs:230-263 | opening under the same key and associated data gives the plaintext |
| `Crypto.SealedRefusesOtherAad` | crates/secure-log/src/crypto.rs:253-263 | under other associated data and any key a sealed payload fails to decrypt, or that opening is a forgery |
| `Crypto.OpensIff` | crates/secure-log/src/crypto.rs:253-263 | any bytes open exactly when they hold a nonce and at least a tag and the rest decrypts, and to that plaintext |
| `Crypto.TierParses` | crates/secure-log/src/crypto.rs:75-98 | parsing a printed tier gives the tier |
| `Crypto.TierParsesIff` | crates/secure-log/src/crypto.rs:75-98 | a text is a tier exactly when it is its name up to case, or the strictest one's with an underscore |
| `Crypto.AadReadsBack` | crates/secure-log/src/crypto.rs:173-178 | a right-to-left parse recovers stream, tier and segment, also when the stream name contains the separators |
| `Crypto.AadIsInjective` | crates/secure-log/src/crypto.rs:173-178 | the associated data pins stream, tier and segment |
| `Crypto.MinimizeMetadata` | crates/secure-log/src/crypto.rs:193-213 | the tag is the prefix and the first eight derived bytes in hex |
| `KeyDerivation.PayloadKeysSeparate` | crates/secure-log/src/crypto.rs:130-167 | one payload key means one master key, stream, tier and segment, or two different HKDF inputs with one output are in hand |
| `KeyDerivation.TagReadsBack` | crates/secure-log/src/crypto.rs:193-213 | a metadata tag is the prefix and the hex of the first eight derived bytes |
| `KeyDerivation.TagsSeparate` | crates/secure-log/src/crypto.rs:193-213 | within a stream one tag means one field and value, or two HKDF inputs agree in eight bytes |
| `KeyDerivation.TagsMeetAcrossStreams` | crates/secure-log/src/crypto.rs:193-213 | the failing input across streams: two streams and values with one derivation input |
| `HeadFiles.HexReadsBack` | crates/secure-log/src/witness.rs:52-64 | parsing the written hex of a digest gives the digest |
| `HeadFiles.HexParsesIff` | crates/secure-log/src/witness.rs:52-64 | a text parses to bytes exactly when it is their character pairs in order |
| `HeadFiles.UpsertSetsOneStream` | crates/secure-log/src/witness.rs:136-151 | after an upsert the stream has the new record and every other stream the one it had |
| `HeadFiles.HeadFile.Upsert` | crates/secure-log/src/witness.rs:136-146 | the loop replaces the stream's record in place or appends one |
| `Engine.SignedVerifies` | crates/secure-log/src/signer.rs:66-80 | an assumption about the signer, read back: verification accepts what signing returned |
| `Runs.AppendRowAdds` | crates/secure-log/src/native.rs:778-854 | in a reachable store an append that is not refused adds one sealed row with the next global seqno |
| `Runs.LinkIsTip` | crates/secure-log/src/native.rs:789-796 | the digest an append links to is the tip of its stream's chain |
| `Runs.SegmentIsListed` | crates/secure-log/src/native.rs:713-728 | a segment of a reachable store is found by id, is in its stream's list, and its checkpoint hash is the fold up to it |
| `Runs.ApplyKeepsStateOk` | crates/secure-log/src/native.rs:173-1216 | every operation keeps: dense seqnos, valid chains, segments that describe their rows, links that equal the fold, signatures that verify, head records that are true |
| `Runs.ReachableStateOk` | crates/secure-log/src/native.rs:173-1216 | every state of every run from a fresh store satisfies that invariant |
| `ChainTheorems.VerifyChainAcceptsReachable` | crates/secure-log/src/native.rs:934-1019 | in every reachable state `verify_chain` accepts exactly the ranges that hold a row of the stream |
| `ChainTheorems.EntriesHashTheirFields` | crates/secure-log/src/native.rs:803-834 | every stored entry hash is the hash of the entry's own stored fields |
| `SegmentTheorems.CloseSucceedsIff` | crates/secure-log/src/native.rs:1021-1053 | `close_segment` succeeds exactly when the stream has a row beyond its last segment, and then covers it up to the head |
| `SegmentTheorems.SegmentsPartitionStream` | crates/secure-log/src/native.rs:1021-1116 | the rows of a stream's segments, one after the other, are exactly its rows up to the last covered seqno |
| `SegmentTheorems.SegmentsAreOrdered` | crates/secure-log/src/native.rs:1021-1116 | segment ranges are disjoint and in order |
| `SegmentTheorems.CoveredByExactlyOne` | crates/secure-log/src/native.rs:1021-1116 | a row lies within exactly one segment of its stream if it is covered and within none otherwise |
| `SegmentTheorems.SegmentDescribesRows` | crates/secure-log/src/native.rs:1055-1104 | bounds, Merkle root, last entry hash and leaf records 0, 1, 2, ... of a stored segment are those of its rows |
| `InclusionTheorems.LookupFindsCover` | crates/secure-log-store-file/src/lib.rs:523-530 | the lookup by seqno finds the covering segment, and finds one exactly for covered seqnos |
| `InclusionTheorems.InclusionProofVerifies` | crates/secure-log/src/native.rs:1135-1173 | `inclusion_proof` succeeds exactly for covered seqnos, carries the stored hash, and verifies against the root stored at closing |
| `InclusionTheorems.ProofSurvivesRun` | crates/secure-log/src/native.rs:1135-1173 | a proof that exists is the same after any further run |
| `CheckpointTheorems.SignatureVerifiesIff` | crates/secure-log/src/native.rs:585-622 | in a well-formed store a segment's signature verifies, over the recomputed hash, exactly when it has one; `CheckpointAnswers.SignatureAnswers` is the answer in any store |
| `CheckpointTheorems.CheckpointChainVerifiesIff` | crates/secure-log/src/native.rs:631-676 | in every reachable state `verify_checkpoint_chain` returns the segment count if all are signed, and otherwise what is missing |
| `CheckpointTheorems.RollbackCheckAccepts` | crates/secure-log/src/native.rs:536-576 | after any run `check_rollback` accepts, for every process and stream |
| `CheckpointTheorems.RollbackCheckBinds` | crates/secure-log/src/native.rs:536-576 | any store the check accepts holds the same checkpoint fields up to the recorded segment as the store that was signed, or the break is genuine |
| `CheckpointAnswers.SignatureAnswers` | crates/secure-log/src/native.rs:585-622 | in any store a signature is accepted, with the recomputed hash, exactly when it and its signer are there and the signer's verification accepts it over that hash; a rejected one, a verifier that fails, and each missing part are reported as such |
| `CheckpointAnswers.CheckpointChainAcceptsIff` | crates/secure-log/src/native.rs:631-676 | in any store `verify_checkpoint_chain` accepts exactly when there are segments, every stored link is the recomputed hash before it, and every signature holds |
| `CheckpointAnswers.CheckpointChainReportsFirst` | crates/secure-log/src/native.rs:631-676 | otherwise it reports the first segment whose link or signature fails, and why |
| `CheckpointAnswers.RollbackAnswers` | crates/secure-log/src/native.rs:536-576 | in any store `check_rollback` accepts exactly when the stream reaches the recorded segment, its recomputed hash is the recorded one, and its signature holds; what fails first is reported, and without a record it accepts |
| `CheckpointAnswers.ReplacedSignatureIff` | crates/secure-log/src/native.rs:536-676 | whatever is written into the signature columns of one segment of a reachable store, the three checks accept it exactly when the signer's verification does |
| `CheckpointAnswers.RejectedSignatureIsReported` | crates/secure-log/src/native.rs:536-676 | a replaced signature that the signer rejects is reported as a mismatch at the segment's end by all three |
| `RewrittenHistory.RollbackAcceptsEntriesIff` | crates/secure-log/src/native.rs:536-576 | over a reachable store's segments, the rollback check accepts other entries exactly when they end the recorded segments with the same boot and session ids, or a break is genuine |
| `RewrittenHistory.CheckpointChainSeesOnlyEnds` | crates/secure-log/src/native.rs:631-676 | `verify_checkpoint_chain` answers the same for all such entries |
| `RewrittenHistory.RewrittenEntriesPass` | crates/secure-log/src/native.rs:536-1019 | any chained entries that end the segments alike pass the entry chain and change no answer of the checkpoint checks |
| `RewrittenHistory.RewrittenLastEntryPasses` | crates/secure-log/src/native.rs:536-1019 | the last entry of any reachable store, closed and signed or not, can be rewritten so |
| `RewrittenHistory.RewrittenPayloadPasses` | crates/secure-log/src/native.rs:536-1019 | a concrete log, its one segment signed and recorded in the head file, whose checkpoint chain counts that segment before and after its payload is replaced, and the other checks accept |
| `RewrittenHistory.TruncationPasses` | crates/secure-log/src/native.rs:536-576 | entries beyond the recorded end can be cut off without the entry chain or the rollback check noticing |
| `TamperEvidence.AcceptedHistoryIsBoundIff` | crates/secure-log/src/native.rs:536-576 | after an accepted rollback check and `verify_chain` to the recorded end, the rows are the honest ones exactly when the last hash is the one the segment row names, or a break is genuine |
| `TamperEvidence.LongEntriesAreNotNodeSized` | crates/secure-log/src/encoder.rs:71-98 | sixteen bytes in the other fields of a chained entry keep its encoding from having the 64 bytes a tree node hashes |
| `TamperEvidence.VerifiedEntryIsARow` | crates/secure-log/src/lib.rs:220-247 | soundness of `verify_inclusion_proof`: any proof that carries an entry's hash and is accepted against an honest segment's root carries the hash of a row of that segment, or `ProofBreak` is a collision, unless the entry or a row is node sized |
| `TamperEvidence.NodePassesForEntry` | crates/secure-log/src/lib.rs:220-247 | the failing input: the hash of two leaves is accepted against their root with an empty path, whatever seqno and segment the proof names |
| `TamperEvidence.VerifiedProofBindsLeaves` | crates/secure-log/src/lib.rs:220-247 | a proof that verifies against an honest segment's root and was built over hashed entries, any number of them and none node sized, was built from the honest entry hashes in order, or `TreeCollision` is genuine |
| `TamperEvidence.ProvenHistoryIsBound` | crates/secure-log/src/native.rs:536-1173 | with the log's own rollback check and entry chain and any accepted inclusion proof of the recorded end, all rows up to that end are the honest ones, or an explicit break is genuine; neither the end entry nor an honest row of the segment is node sized |
| `TamperEvidence.HonestHistoryIsProven` | crates/secure-log/src/native.rs:536-1173 | every reachable store with a recorded head meets these conditions with its own inclusion proof |
| `PayloadTheorems.StepExtendsList` | crates/secure-log/src/native.rs:1021-1116 | a stream's segment list only grows at its end, signatures apart, and a new segment ends at the head with the next global id |
| `PayloadTheorems.SegmentOfEntrySince` | crates/secure-log/src/native.rs:323-340 | an entry is looked up under the expected id while uncovered, and then under the id of the first segment its stream closed since |
| `PayloadTheorems.SealedRowOpensIff` | crates/secure-log/src/native.rs:308-351 | a sealed row opens under the tier and segment id it was sealed under; under others it fails to decrypt, or that opening is a forgery; a tier text that no longer parses is the error |
| `PayloadTheorems.AppendEncryptedStores` | crates/secure-log/src/native.rs:173-296 | a successful `append_encrypted` adds one row whose payload is sealed under the stream's tier and the expected segment id |
| `PayloadAnswers.EncryptedReadsBack` | crates/secure-log/src/native.rs:173-296 | after any further run the row of an encrypted append holds, field by field, what it should: event type and producer as keyed tags exactly in highly restricted streams and else as given, severity, time, ids and link as for an append, and it hashes to the returned digest |
| `PayloadAnswers.OpenAnswers` | crates/secure-log/src/native.rs:308-351 | in any store: an unknown seqno, a plain payload, an unknown encoding, a missing master key and a tier that does not parse, each with its answer |
| `PayloadAnswers.PlainEntryOpens` | crates/secure-log/src/native.rs:308-351 | after any further run and for any process a plain append opens to the caller's payload, and one with an encoding that is neither of the two is refused |
| `PayloadAnswers.SealedNeedsMasterKey` | crates/secure-log/src/native.rs:308-351 | a sealed entry is refused without a master key |
| `PayloadAnswers.UnknownSeqnoIff` | crates/secure-log/src/native.rs:308-309 | in a reachable state exactly the seqnos never appended are reported as unknown |
| `PayloadTheorems.PayloadOpensIff` | crates/secure-log/src/native.rs:187-351 | after any run a sealed payload opens if its tier is unchanged and it is uncovered or covered under the expected id; otherwise it fails to decrypt, or that opening is a forgery; a tier text that no longer parses is the error |
| `PayloadTheorems.SoleCloserOpens` | crates/secure-log/src/native.rs:187-351 | where only that stream closes segments and its tier is unchanged, every sealed payload opens |
| `PayloadTheorems.CloseKeepsPayloadIff` | crates/secure-log/src/native.rs:187-340 | an uncovered payload opens after its stream is closed if the store's next id is the one the stream expects, and otherwise fails to decrypt, or that opening is a forgery |
| `PayloadTheorems.CloseChangesLookup` | crates/secure-log/src/native.rs:187-340 | closing changes an entry's lookup id from the stream's expected id to the store's next id |
| `PayloadTheorems.CrossedClosesHidePayload` | crates/secure-log/src/native.rs:162-172 | a concrete run after which a sealed payload no longer decrypts, or opening it is a forgery |
| `StreamTheorems.DeprecatedIff` | crates/secure-log/src/native.rs:1185-1216 | after any steps from any state a stream is deprecated exactly when its last word is a deprecation made while it was known |
| `StreamTheorems.AppendRefusedIff` | crates/secure-log/src/native.rs:375-390 | after any run an append is refused exactly then, and for no other reason |
| `StreamTheorems.EncryptedAppendAnswers` | crates/secure-log/src/native.rs:173-201 | after any run an encrypted append is accepted exactly when the last word on the stream is no deprecation, there is a master key and the tier parses, with the error of the first that fails |
| `StreamTheorems.DeprecationHolds` | crates/secure-log/src/native.rs:375-390 | after `deprecate_stream`, until the stream is created again, no run adds a row to it |
| `StreamTheorems.AppendSparesDeprecated` | crates/secure-log/src/native.rs:375-390 | an append to a deprecated stream is refused and changes nothing; other appends leave its rows alone |
| `StreamTheorems.CreateLiftsDeprecation` | crates/secure-log/src/native.rs:1185-1201 | after `create_stream` an append to that stream succeeds |
| `OperationTheorems.AppendReadsBack` | crates/secure-log/src/native.rs:778-854 | after any further run the appended entry reads back with the caller's fields, the process's ids and the old tip, and hashes to the returned digest |
| `OperationTheorems.EntriesAreKept` | crates/secure-log/src/native.rs:778-854 | no run changes or removes an entry |
| `OperationTheorems.CloseReadsBack` | crates/secure-log/src/native.rs:1083-1133 | `close_segment` returns what reading the new segment gives |
| `OperationTheorems.CloseRefusesEmpty` | crates/secure-log/src/native.rs:1021-1053 | a close that does not succeed in a reachable state is refused as empty and changes nothing |
| `OperationTheorems.UncoveredHasNoProof` | crates/secure-log/src/native.rs:1135-1173 | seqnos without a covering segment have no inclusion proof and are reported as unknown |
| `OperationTheorems.CheckpointCommitsTo` | crates/secure-log/src/checkpoint.rs:26-55 | the checkpoint of a closed segment holds its bounds, root, last hash, the fold before it, and the session and boot of its last entry |
| `OperationTheorems.SignedSegmentVerifies` | crates/secure-log/src/native.rs:401-454 | what `sign_segment` returned is the signer's signature of the segment's checkpoint hash under the caller's name; it is stored with the signer's identity, changes nothing else, verifies right after, and is what the head file records |
| `OperationTheorems.SignFailsIff` | crates/secure-log/src/native.rs:401-454 | in a reachable state signing fails exactly for an unknown segment or a failing signer, and then changes nothing |
| `OperationTheorems.CreateSetsTier` | crates/secure-log/src/native.rs:358-390 | a created stream resolves to the tier it was created with |
| `OperationTheorems.TierAnswers` | crates/secure-log/src/native.rs:358-373 | a stream nobody created is public, and any other has the tier its stored text is read as, or an error |
| `OperationTheorems.CreateReadsBack` | crates/secure-log/src/native.rs:1185-1201 | name, tier, description and time are stored as given, undeprecated, and no other stream changes |
| `OperationTheorems.DeprecateReadsBack` | crates/secure-log/src/native.rs:1211-1216 | the deprecation time of a known stream is set and nothing else; an unknown one is refused without change |
| `WitnessSubmissions.WitnessAnswers` | crates/secure-log/src/native.rs:508-529 | in any store, any submission is answered true exactly when its text is the hex of the digest the store recomputes at the segment, with a divergence error when that is another one, and never false |
| `WitnessSubmissions.CheckpointHashSurvivesRun` | crates/secure-log/src/native.rs:713-728 | the checkpoint hash of a closed segment is the same after any further run |
| `WitnessSubmissions.SubmissionIsBuiltIff` | crates/secure-log/src/native.rs:461-500 | built exactly when the stream has a signed segment, and then for the last signed one: its bounds, the hex of its recomputed hash and of its signature, and its signer |
| `WitnessSubmissions.SubmissionVerifiesLater` | crates/secure-log/src/native.rs:461-529 | a submission is confirmed after any further run |
| `WitnessSubmissions.ConfirmedSubmissionBinds` | crates/secure-log/src/native.rs:508-529 | a store that confirms an honest submission holds the same checkpoints up to it, or the break is genuine |
| `Guarantees.AfterAnyRun` | crates/secure-log/src/native.rs:536-1019 | after any run from a fresh store: entry chains verify over every range with rows, checkpoint chains exactly when all segments are signed, and the rollback check accepts |
| `Guarantees.ProofsLast` | crates/secure-log/src/native.rs:1135-1173 | after any run and any further run, a covered entry has its one inclusion proof, which verifies against the stored root |
| `Interleaving.InsertWinsIff` | crates/secure-log-store-file/src/lib.rs:373-403 | an insert wins exactly when no other came after its writer read the head; a losing one changes nothing |
| `Interleaving.SeqnosStayDense` | crates/secure-log/src/native.rs:787-848 | under every interleaving of any number of writers seqnos are 1, 2, 3, ... in insertion order and no row changes |
| `Interleaving.ChainStaysValid` | crates/secure-log/src/native.rs:787-848 | a stream with at most one appender at any moment keeps a valid chain, whatever the writers of other streams do |
| `Interleaving.ChainStaysValidIff` | crates/secure-log/src/native.rs:787-848 | under any schedule a valid chain stays valid exactly when every winning insert on the stream links to the tip of that moment |
| `Interleaving.UndisturbedIsAppend` | crates/secure-log/src/native.rs:787-848 | the three calls of one undisturbed writer are the engine's append |
| `Interleaving.RaceBreaksChain` | crates/secure-log/src/lib.rs:71-77 | two appenders on one stream without a lock: a concrete schedule after which `verify_chain` reports a mismatch |
| `ConcurrentClosing.AlwaysOkIff` | crates/secure-log/src/native.rs:1021-1116 | under any schedule of appends, closes, signatures and stream changes the stream's segments and head record are sound at every moment exactly when each segment was inserted with no other of the stream in between since its closer's first read |
| `ConcurrentClosing.OneCloserSuffices` | crates/secure-log/src/native.rs:1021-1116 | a stream with at most one closer at any moment stays sound, whatever appenders and other streams' closers race |
| `ConcurrentClosing.StaleInsertIsNotOk` | crates/secure-log/src/native.rs:1021-1116 | inserting a segment built from an outdated start leaves the stream's segments unsound: it starts at or before a row that is already covered |
| `ConcurrentTheorems.OneCloserGuarantees` | crates/secure-log/src/native.rs:1021-1116 | after any schedule from a fresh store with one closer of the stream at a time: its segments partition its covered rows, its checkpoint chain verifies exactly when all are signed, the rollback check accepts |
| `ConcurrentTheorems.InterleavingKeepsStateOk` | crates/secure-log/src/native.rs:778-1116 | after any interleaving with at most one appender and one closer per stream at a time the sequential invariant holds |
| `ConcurrentTheorems.WinIsAppend` | crates/secure-log/src/native.rs:787-848 | with one appender on the stream a winning insert is the engine's append at that moment |
| `ConcurrentTheorems.UndisturbedIsClose` | crates/secure-log/src/native.rs:1021-1116 | the five calls of one undisturbed closer are the engine's close, in any store, errors included |
| `ConcurrentTheorems.TwoClosersOverlap` | crates/secure-log/src/native.rs:1021-1116 | in every reachable state where closing succeeds: a concrete schedule of two closers that leaves two segments with the same bounds, root and predecessor |
| `ConcurrentTheorems.TwoClosersDrift` | crates/secure-log/src/native.rs:631-676 | after it, with the first signed, `verify_checkpoint_chain` reports a drift at the second, unless a checkpoint's hash is the digest it stores as its predecessor's |
| `FileLog.NextIdsAreAbove` | crates/secure-log-store-file/src/lib.rs:173-226 | the next ids lie above every id ever logged, deleted rows included |
| `FileLog.IdsAreNeverReused` | crates/secure-log-store-file/src/lib.rs:451-571 | in every log the store writes, later segment and witness ids are larger, also across deletions and reloads |
| `FileLog.WrittenIsUnique` | crates/secure-log-store-file/src/lib.rs:373-403 | the tables of such a log have unique seqnos and unique witness ids below the next one |
| `FileLog.SegmentIsLogged` | crates/secure-log-store-file/src/lib.rs:451-478 | the engine's segment insert is one logged operation |
| `FileLog.StreamsStay` | crates/secure-log-store-file/src/lib.rs:204-222 | no operation removes a stream |
| `FileLog.TierSetsOne` | crates/secure-log-store-file/src/lib.rs:204-222 | setting a tier changes that column of the one stream |
| `FileLog.ReopeningKeepsLog` | crates/secure-log-store-file/src/lib.rs:258-272 | opening a log again after any operations adds nothing to it |
| `FileStores.FileStore.Load` | crates/secure-log-store-file/src/lib.rs:236-257 | the replay loop ends in the fold of `apply` over any log |
| `FileStores.FileStore.Apply` | crates/secure-log-store-file/src/lib.rs:173-226 | updates the vectors and counters in place to what the operation says, the rest unchanged |
| `FileStores.FileStore.Commit` | crates/secure-log-store-file/src/lib.rs:297-302 | logs one operation and applies it; the tables stay the replay of the log |
| `FileStores.FileStore.Insert` | crates/secure-log-store-file/src/lib.rs:373-403 | refuses a taken seqno without any change, and otherwise appends the row |
| `FileStores.FileStore.SegmentInsert` | crates/secure-log-store-file/src/lib.rs:451-478 | assigns the next id and stores the segment and its leaf records |
| `FileStores.FileStore.SegmentSetSignature` | crates/secure-log-store-file/src/lib.rs:532-550 | signs the one segment with this id, or fails without any change |
| `FileStores.FileStore.WitnessInsert` | crates/secure-log-store-file/src/lib.rs:552-571 | assigns an id above every id in the table |
| `FileStores.FileStore.StreamUpsert` | crates/secure-log-store-file/src/lib.rs:653-666 | replaces the stream's row or adds one |
| `FileStores.FileStore.StreamSetTier` | crates/secure-log-store-file/src/lib.rs:680-687 | changes the tier of the one stream, or fails without any change |
| `FileStores.FileStore.StreamDeprecate` | crates/secure-log-store-file/src/lib.rs:689-705 | marks the one stream, or fails without any change |
| `FileStores.FileStore.WitnessLogGc` | crates/secure-log-store-file/src/lib.rs:604-651 | leaves exactly the survivors, in order, returns how many rows went, and touches no other table |
| `FileStores.InitStore` | crates/secure-log-store-file/src/lib.rs:236-273 | rejects an empty path; otherwise the tables are the replay of the log, seeded once with the default stream |
| `StreamIds.DistinctStreamsEnumerate` | crates/secure-log-store-file/src/lib.rs:595-602 | collecting, sorting and deduplicating lists every stream with a row once, each before the ones it precedes |
| `WitnessGc.SurvivesIff` | crates/secure-log-store-file/src/lib.rs:604-651 | a row survives exactly when its stream is not selected, or it is among the k newest of its stream, or it was not received before the cutoff, or neither says what to delete |
| `WitnessGc.LessIsPrecedes` | crates/secure-log-store-file/src/lib.rs:636-641 | the order of times and stream ids: a proper beginning, or the smaller byte at the first difference |
| `WitnessGc.LatestSurvives` | crates/secure-log-store-file/src/lib.rs:604-651 | every stream keeps its latest row when k is at least 1 |
| `WitnessGc.NothingToDo` | crates/secure-log-store-file/src/lib.rs:628-630 | nothing goes when nothing is kept by number and there is no cutoff |
| `WitnessGc.LatestIdsAreTop` | crates/secure-log-store-file/src/lib.rs:622-627 | the keep set of a stream is the ids with fewer than k newer rows |
| `SqliteWitnessLog.WitnessTable.Gc` | crates/secure-log-sqlite/src/lib.rs:515-606 | leaves the same survivors and returns the same count, in whatever order the streams come |
| `Native.NativeSecureLog.AppendSealed` | crates/secure-log/src/native.rs:789-853 | links to the stream's last row, takes the next global seqno, hashes, inserts |
| `Native.NativeSecureLog.AppendInner` | crates/secure-log/src/native.rs:778-854 | as the engine's append; in a reachable state it fails only for a deprecated stream |
| `Native.NativeSecureLog.SealAndAppend` | crates/secure-log/src/native.rs:173-296 | as the engine's encrypted append, errors in the same order, and keeps reachable states reachable |
| `Native.NativeSecureLog.CheckChain` | crates/secure-log/src/native.rs:934-1019 | the loop returns the first error in row order, or accepts, as `Chain.VerifyChain` |
| `Native.NativeSecureLog.Close` | crates/secure-log/src/native.rs:1021-1116 | as the engine's close, with the root from the Merkle loop and the link from the recursion |
| `Native.NativeSecureLog.Prove` | crates/secure-log/src/native.rs:1135-1173 | rebuilds the leaves in leaf order and returns the engine's proof |
| `Native.NativeSecureLog.PreviousCheckpoint` | crates/secure-log/src/native.rs:681-705 | the loop finds the segment before the given one, and the recursion its hash |
| `Native.NativeSecureLog.ComputeCheckpointHashFor` | crates/secure-log/src/native.rs:713-745 | terminates on every store with the recomputed checkpoint hash or the first error |
| `Native.NativeSecureLog.Sign` | crates/secure-log/src/native.rs:401-454 | stores a signature over the recomputed hash and records it in the head file if there is one |
| `Native.NativeSecureLog.CheckSignature` | crates/secure-log/src/native.rs:585-622 | recomputes the hash and checks the stored signature, errors in the same order |
| `Native.NativeSecureLog.CheckCheckpointChain` | crates/secure-log/src/native.rs:631-676 | the loop walks the segments, each stored link against the hash computed for the one before |
| `Native.NativeSecureLog.CheckForRollback` | crates/secure-log/src/native.rs:536-576 | compares the recorded head with the store: present, same hash, signature still valid |
| `Native.NativeSecureLog.Open` | crates/secure-log/src/native.rs:308-351 | plain payloads as they are, sealed ones under the looked-up segment's key |
| `Native.NativeSecureLog.Create` | crates/secure-log/src/native.rs:1185-1201 | creates or replaces the stream's row |
| `Native.NativeSecureLog.Deprecate` | crates/secure-log/src/native.rs:1211-1216 | marks a known stream, and fails for an unknown one |
| `Native.FreshStoreIsInitial` | crates/secure-log-store-file/src/lib.rs:236-273 | opening an absent log gives the state every run starts from |

## Left out

- SHA-256, HKDF, ChaCha20-Poly1305, ed25519, ECDSA and RSA-PSS themselves, and the keystore: arbitrary fixed functions with the laws named above.
- Integer widths: seqnos, ids and counts are unbounded. The encoder's results name the 32- and 64-bit ranges as `EntryInRange` and `CheckpointInRange`; the SQLite store's cast of seqnos to i64, the overflow of `head + 1`, the cast of the keep count to i64, and the 32-bit count of deleted rows are not modelled.
- UTF-8: text is its bytes, and a head record with multi-byte characters, on which slicing the hex text would panic in the middle of one, is parsed byte by byte.
- Error message texts: each is replaced by a named cause.
- The `Option` around row seqnos and segment ids on the way into and out of the store: stored rows always have them.
- JSON text, disk writes, fsync, partial writes, file errors and a corrupt line in the log file: one logged operation is one atomic append.
- Loading, saving and the format version of the head file: it is an object that processes share.
- Interleaving.ChainStaysValid: at most one appender per stream at any moment, because the trait puts that on the caller; `ChainStaysValidIff` is the exact condition and `RaceBreaksChain` a schedule that fails it.
- Signing, stream creation and the checks as several interleaved steps: each is one call in the schedules. The recomputation of the last segment's checkpoint hash is one call too.
- The deprecation check of an append as a call of its own: a schedule may start an append to any stream.
- TamperEvidence.ProvenHistoryIsBound: says nothing of entries whose encoding is 64 bytes long, because the tree does not separate them from its nodes.
- Native.NativeSecureLog.SealAndAppend: requires a twelve-byte nonce, which the original draws itself.
- Separation of metadata tags across streams: the format does not separate them, as `KeyDerivation.TagsMeetAcrossStreams` shows.
- `created_at` across back ends: the file store overwrites it on upsert, SQLite does not; the model follows the file store.
- `list_segments`, `list_streams`, `witness_log_latest` and `witness_log_list`: filter and copy.
- `stream_set_tier` as a step of the runs: it changes only the streams table, and the payload results allow any tier at the end.
- SQL text, migrations, connections, the wasm SQLite store, the remote store, the RPC crates, the HTTP transport and the component adapter: conversions and I/O.
- Boot id lookup, clocks and session id generation: inputs.
