# The CoinNews indexer in Dafny

A model of the CoinNews indexer and proofs about it. The indexer walks the blocks of a Bitcoin
node, reads messages out of OP_RETURN outputs (topics, stories, comments, votes, continuations),
applies the protocol rules, and keeps an index that it rewinds when the node's chain changes.

`dafny verify dfyconfig.toml` checks the whole project.

## The parts

| file | models |
|---|---|
| `Bytes.dfy`, `Codec.dfy`, `Messages.dfy` | bytes and hexadecimal text; compact-size integers and TLV tuples; the parser and printers of the messages |
| `Wire.dfy` | the wire format in bytes and offsets, and that the parser and the printers follow exactly it |
| `Script.dfy` | the OP_RETURN push parser; item ids and signature checks over an abstract hash and verifier |
| `IndexState.dfy` | the rows, the index they make up, each write and the height cut as a function; outpoint keys; vote order |
| `Indexing.dfy` | from a block to its messages, and what one message writes |
| `Retry.dfy` | a pass over a block that stops at any store call and is started again |
| `Cuts.dfy` | what a height cut leaves, and the votes it loses |
| `Rules.dfy` | the index said without running it: which messages are kept, which rows stand |
| `Chain.dfy` | hash-linked chains, where one hash names a whole chain |
| `Runs.dfy` | a run of the scanner as a function of its store, the node's replies and the store calls that succeed |
| `NodeErrors.dfy` | what an answer or an error of the node can do to the store: which of them delete rows, and which |
| `Soundness.dfy`, `Progress.dfy` | what every run keeps; when runs end, and what a run does on a chain that stays still |
| `Forks.dfy`, `Failures.dfy` | which node behaviour keeps the scanner's assumptions; for each of them, exactly when its failure harms the store |
| `Reached.dfy` | a node with three branches, and sessions on it that start from a new store and reach each failure |
| `Sorting.dfy` | stable sorting by a comparison, as a function and in place |
| `Threads.dfy`, `Queries.dfy` | references, threads, authorship; tallies, feeds, the order of a thread, paging |
| `Store.dfy`, `Scanner.dfy` | the classes `MemoryStore` and `Scanner`, whose methods are proved against the functions above |

## How a run is modelled

The node answers each call from a script of replies. A reply is the whole active chain at that
moment, as the hash at each height, or an error, so the chain may change between any two calls. A
hash determines its block, and so the whole chain below it; no list of processed blocks is kept.
`Fresh(c, hash, n)` is the index of one plain pass over the `n` blocks that end in `hash`, and the
main result compares the real store with it. The store performs a given number of calls and then
fails; a failing call writes nothing. A script that ends early stands for a process that is
stopped at a call to the node, and for a cancelled context.

Four fields of `Machine` are history and decide nothing: `residue` (what the last writes left that
the cursor does not show), `rewinds`, `lost` (the keys under which a rewind deleted a vote and none
has been kept since, in a finished block or on an emptied store), and `trusted`. The scanner relies on conditions that it does not check, and
`trusted` is lost when one fails:

- *Fork depth.* A rewind takes its anchor hash from the node without comparing it to what is
  indexed (scanner/scanner.go:125-134). The anchor must be an ancestor of the block the cursor names.
- *Stale cursor.* A rewind to the start height saves no cursor, and a failure between the delete and
  the save leaves the old one (scanner/scanner.go:118-132). The old cursor block must not be on the
  active chain at the next resume.
- *Half-done block.* Resuming deletes nothing above the cursor (scanner/scanner.go:104-106). A block
  that was begun must come again, and nothing in it that is refused at first may be acceptable once
  the block is stored.

`Trustworthy(c)` collects what is taken for granted about the node's blocks: item ids do not repeat
on one chain, and a transaction lists its outputs by ascending number. Replies are hash-linked
chains (`LinkedView`).

## What the proofs found

- Votes are not restored by a rewind. `PutVote` overwrites the older vote and `DeleteFromHeight`
  drops the newer one. A cut loses exactly the keys that voted both below and above it
  (`CutIsShorterChain`), and equals the shorter index exactly when there are none
  (`CutIsExactlyShorter`). Over any number of runs the votes of the store are those of the plain
  index without the keys in `lost` (`IndexIsPlainPass`).
- Reprocessing a block is not always idempotent. It is exactly when no message refused on the first
  pass would be accepted afterwards (`RetryExactly`); a comment ahead of its story in one block is
  lost at first and kept on a retry (`ForwardReferenceIsLateAccepted`, `LateAcceptanceIsReached`).
- If no chain the node reports replaces more than the newest `depth + 1` blocks of an earlier one,
  no rewind is too short, however far the chain grows (`ShallowForksIndexPlainly`).
- A deeper fork harms the store exactly when the two chains give different indexes below the rewind
  target (`DeepForkExactly`), and the blocks that follow repair nothing (`DeepForkAtTip`).
- A part left of blocks that were begun at one height and replaced is harmless exactly when its rows
  stand in the plain index of the new block, nothing the new block refuses is acceptable on it, and
  its votes are no later than those that stand (`OrphanedPartExactly`, `OrphanedPartAtTip`).
- A stale cursor whose block is on the chain again is harmless exactly when the store holds, from the
  rewind target up, the rows of that chain (`StaleCursorExactly`, `StaleCursorAtTip`). If the delete
  was the last write, that is when the deleted blocks hold no kept message
  (`StaleCursorAfterDelete`); if part of a first block was written since, its rows may be wrong too
  (`StalePartIsReached`).
- For every rewind depth each of these failures is reached from a new store (`Reached.dfy`).
- An error of the node deletes nothing. Rows go only after an answer that shows a replaced block
  (`DeletesOnlyOnReorg`, `ErrorsDeleteNothing`).
- store/store.go:218 calls the order of a thread canonical, but within a block it is the order of the
  texts of the ids. A thread is in scan order exactly when the two agree
  (`ThreadInScanOrderExactly`), which they need not (`ThreadLeavesScanOrder`).
- The printers check no limits. A message comes back exactly when it is within them
  (`MessageRoundTrip`); a compact size exactly when it is below 2^32 (`SizeReadsBack`).
- main.go:69 says the start height matters only on a fresh database. `rewind` also clamps to it
  and rescans from it (scanner/scanner.go:114-124); the model follows the code.

## Model

| member | source | states |
|---|---|---|
| Bytes.HexRoundTrip | scanner/script.go:18-20 | hexadecimal text written for some bytes decodes to those bytes |
| Bytes.HexValueExactly | scanner/script.go:18-20 | the value of a hexadecimal digit, in either case |
| Bytes.DecodeHexExactly | scanner/script.go:18-22 | text decodes to some bytes exactly when it has two digits of either case for each, the greater first |
| CompactSize.SizeReadsBack | codec/varint.go:16-64 | a written size reads back, whatever follows it, exactly when it is below 2^32 |
| CompactSize.SizeIsCanonical | codec/varint.go:33-64 | the only bytes that read as a size are the ones written for it |
| Wire.SizeReadExactly | codec/varint.go:33-64 | a size is one byte up to 252, or 253 and two bytes, or 254 and four, least byte first, and never a longer form than needed |
| CompactSize.PutCompactSize | codec/varint.go:16-31 | appends bytes that read back as the size and its length |
| Tlv.TlvsAreCanonical | codec/tlv.go:27-46 | printing the tuples of an accepted byte string restores it, and all lengths fit 32 bits |
| Tlv.TlvRoundTrip | codec/tlv.go:14-46 | printed tuples parse back exactly when every length fits 32 bits |
| Tlv.EncodeTLVs | codec/tlv.go:14-22 | the loop writes the concatenated tuples, which parse back exactly when every length fits 32 bits |
| Tlv.DecodeTLVs | codec/tlv.go:27-46 | the loop agrees with the recursive parser on values and on errors; accepted bytes are restored by printing |
| Tlv.FindFirst | codec/tlv.go:49-56 | the value of the first tuple with the tag, or none exactly when no tuple has it |
| Tlv.FirstValueExactly | codec/tlv.go:49-56 | the value found is that of a tuple with the tag, and no tuple before it has the tag |
| Wire.TuplesReadExactly | codec/tlv.go:27-46 | bytes parse as some tuples exactly when they are, one behind the other, tag, size and value of each |
| Wire.DecodesExactly | codec/message.go:82-204 | a payload decodes to a message exactly when it is 43 4e, the type byte 1 to 6 and the fields of that type at their offsets, within the limits 252 and 1 to 63 |
| Wire.RefusedExactly | codec/message.go:82-106 | a payload is refused as foreign exactly when it is short or starts otherwise, and for its type exactly when the third byte is not 1 to 6 |
| Wire.PrintsExactly | codec/encode.go:4-47 | the printers write that format exactly for messages within the limits |
| Messages.AcceptedPayloadIsCanonical | codec/message.go:82-204 | printing what an accepted payload decodes to restores the payload, and it is within the limits |
| Messages.MessageRoundTrip | codec/encode.go:4-47 | for all six types, a printed message decodes to itself exactly when it is within the limits |
| Messages.DecodingIsInjective | codec/message.go:82-106 | no two accepted payloads decode to the same message |
| Messages.EncodeTopicCreation | codec/encode.go:7-13 | writes the payload, which decodes to the message exactly when the name is shorter than 2^32 |
| Messages.EncodeStory | codec/encode.go:16-22 | writes the payload, which decodes to the message exactly when headline and tuples are within limits |
| Messages.EncodeComment | codec/encode.go:25-31 | writes the payload from the tuples; it decodes to the message exactly when the blob is their encoding |
| Messages.EncodeVote | codec/encode.go:34-39 | writes the payload, which decodes to the message exactly when the kind is upvote or downvote |
| Messages.EncodeContinuation | codec/encode.go:42-47 | writes the payload, which decodes to the message exactly when the chunk has 1 to 63 bytes |
| Script.ParsePushExactly | scanner/script.go:27-56 | parsing yields some data exactly when the bytes are a direct, PUSHDATA1 or PUSHDATA2 push of it and a remainder |
| Script.PushForms | scanner/script.go:27-56 | the accepted forms: one byte 1 to 75, or 76 and one byte, or 77 and two bytes, least first |
| Script.OpReturnExactly | scanner/script.go:18-24 | a script holds a payload exactly when its text decodes to the byte 106 and a push of the payload |
| Script.ScriptCarriesMessage | scanner/script.go:18-24 | a message pushed in any accepted form is what is extracted and decoded from the script text |
| Script.PushFormExists | scanner/script.go:35-49 | a push form exists exactly for payloads of at most 65535 bytes |
| Crypto.ItemIDExactly | codec/itemid.go:22-44 | an id exists exactly for 32 bytes of text, and is cut from the hash of those bytes reversed and the output number, least byte first |
| Crypto.SignaturesExactly | codec/sign.go:12-62 | what a signature commits to, in bytes: the hashed tag twice, then parent and tuples, or kind and target |
| Indexing.OutputsExactly | scanner/scanner.go:137-168 | the messages of a block are exactly the payloads that decode in its OP_RETURN outputs, each with the place and the id of its output |
| Indexing.PublishedMessageIsSeen | scanner/scanner.go:139-168 | a printed message in an OP_RETURN output is seen in its block at its place, under its item id |
| Indexing.RawTlvIsOnChain | scanner/scanner.go:246-273 | the raw tuple bytes stored with a story or comment are the bytes at the end of its payload |
| Indexing.CallsExactly | scanner/scanner.go:173-243 | how many store calls a message takes, and that fewer stop the pass |
| OutpointKey.OutKeyIsInjective | store/memory.go:51-53 | the key of an outpoint determines transaction id and output number |
| OutpointKey.DecimalParsesBack | store/memory.go:55-67 | the printed decimal denotes the number |
| OutpointKey.MakeOutKey | store/memory.go:51-53 | joins the transaction id and the decimal output number |
| OutpointKey.Itoa | store/memory.go:55-67 | the ten-cell buffer is never overrun and holds the decimal of every 32-bit number |
| IndexState.BackendsAgreeOnLater | store/sqlite.go:150-153 | the in-memory vote order and the SQL upsert guard are the same relation |
| IndexState.PutVotesKeepsLatest | store/memory.go:146-155 | of any list of votes, every target and author with a vote keeps one that no vote of theirs is later than |
| IndexState.LatestVoteJoin | store/memory.go:146-166 | lists with the same votes leave the same map whatever their order or repeats, and it holds the latest votes |
| IndexState.PutItemKeepsInverse | store/memory.go:107-116 | a write keeps `byOut` and `items` inverse exactly when the item is a repeat or its outpoint is new |
| IndexState.InverseThroughWrites | store/memory.go:82-116 | `byOut` and `items` stay inverse through every sequence of writes and cuts when ids and outpoints determine each other |
| Rules.KeptExactly | scanner/scanner.go:173-239 | a comment or a vote is kept exactly when its key signed the digest of its tag and fields and the item it names is that of a kept message in front of it; every other message is kept |
| Rules.NothingForgedIsKept | scanner/scanner.go:191-213 | where no signature verifies, no comment and no vote is ever stored |
| Rules.RowsAreOwn | scanner/scanner.go:185-286 | each field of the row of a kept story or comment is a field of its message or the value of the first tuple of its own tag |
| Rules.RowsHaveMessages | scanner/scanner.go:173-239 | there is a story, comment or topic row exactly where a kept message of that kind calls for one |
| Rules.FirstCreationWins | store/memory.go:118-126 | the first message that creates a topic gives it its row for good |
| Rules.LastKeptVoteStands | scanner/scanner.go:209-228 | the vote that stands has, field by field, target, voter, kind and place of the last kept one of its author on its target, and there is one exactly when any was kept |
| Retry.FailureIsPartway | scanner/scanner.go:139-239 | a pass stopped at any store call has done some number of messages, or one item row more |
| Retry.RetryConverges | scanner/scanner.go:79-84 | starting a stopped block again, and stopping again, stays on the same pass; finishing gives the uninterrupted result |
| Retry.RetryExactly | scanner/scanner.go:79-84 | retrying gives the uninterrupted result from every stopping point exactly when no message becomes acceptable late |
| Retry.NoForwardRefsSuffice | scanner/scanner.go:196-221 | blocks in which nothing names a later output of the block meet that condition |
| Retry.ForwardReferenceIsLateAccepted | scanner/scanner.go:196-203 | a comment ahead of its story in one block is dropped on the first pass and kept on the second |
| Cuts.CutIsShorterIndex | store/memory.go:82-105 | cutting an index at a height gives the index of the part below, short of exactly the votes cast again above |
| Cuts.ProcessKeepsShort | store/memory.go:146-155 | an index short of some votes is, after any later blocks, short of exactly those of them not cast again |
| Cuts.CutOfShort | store/memory.go:94-98 | a cut of an index short of some votes adds exactly the votes it deletes to those missing |
| Chain.CutIsShorterChain | store/memory.go:82-105 | cutting the index of a chain `k` blocks down gives the index of the shorter chain, short of exactly the votes cast again |
| Chain.CutIsExactlyShorter | store/memory.go:94-98 | the cut is exact, votes included, exactly when no key voted both below and above it |
| Chain.BackInView | scanner/scanner.go:99-106 | the ancestors of a block on a reported chain are the blocks of that chain |
| Chain.OneHashCertifiesPrefix | scanner/scanner.go:99-106 | two chains with the same hash at one height agree at every height below |
| Chain.ChainAscends | scanner/scanner.go:137-141 | the messages of a chain come in strictly ascending canonical order |
| NodeErrors.NoAnswerChangesNothing | scanner/scanner.go:46-94 | a run whose first store call fails, or that gets no answer from the node, leaves the store as it was |
| NodeErrors.CursorCheckFails | scanner/scanner.go:99-103 | a node that is down, or has no block at the cursor's height, ends the run with its error and the store as it was |
| NodeErrors.TurnFailureKeepsStore | scanner/scanner.go:55-69 | so does a failure of any of the three calls of a turn |
| NodeErrors.RewindReaches | scanner/scanner.go:111-135 | a rewind deletes exactly the rows from `depth` blocks below, or the start height, up; where it goes on and which cursor it leaves, for each answer |
| NodeErrors.ReplacedIsRewound | scanner/scanner.go:70-78 | another hash at the cursor, or a block that does not build on the last one, does start a rewind |
| NodeErrors.DeletesOnlyOnReorg | scanner/scanner.go:46-135 | over any answers and failures, a run deletes no row unless the first answer names another block than the cursor or some answer reports a block that does not build on the one reached |
| NodeErrors.ErrorsDeleteNothing | scanner/scanner.go:46-135 | on a chain that stays still no errors of the node, in any number, make a run delete a row |
| Soundness.RewindKeeps | scanner/scanner.go:111-135 | from a sound store a rewind, whichever call fails in it, leaves a state to go on from or to rest in |
| Soundness.IngestKeeps | scanner/scanner.go:79-86 | the same for indexing a block and saving the cursor, new or begun before |
| Soundness.StepKeeps | scanner/scanner.go:51-87 | one turn of the loop keeps the store the plain index of the chain ending in `prevHash` |
| Soundness.ResumeKeeps | scanner/scanner.go:90-109 | resuming from any state a run can leave gives such a state |
| Soundness.RunKeeps | scanner/scanner.go:46-88 | a whole run keeps the store sound |
| Soundness.IndexIsPlainPass | scanner/scanner.go:43-88 | after any runs, chain changes and failures, a trusted store with nothing half done is the index of a plain pass up to the cursor, short of exactly the votes under the keys lost in rewinds and not voted on since |
| Progress.RunEnds | scanner/scanner.go:51-88 | when every call is answered and the chain changes `k` times, a run ends within a stated number of calls, with at most `k` rewinds beyond the one in resume |
| Progress.StillRunCatchesUp | scanner/scanner.go:46-88 | on a chain that stays still a run from any store ends with the cursor at the tip, or at a store failure, and does not rewind in the loop; a number of store calls that is enough is stated |
| Progress.StillRunRecovers | scanner/scanner.go:46-135 | from a sound store, whatever the last run left half done, such a run keeps its trust exactly when the fork is in reach, a stale cursor is off the chain and a begun block comes again; the index is then that of the whole chain |
| Forks.ShallowRunStaysTrusted | scanner/scanner.go:111-135 | when no later chain replaces more than the newest `depth + 1` blocks of an earlier one, a run that can resume keeps every condition |
| Forks.ShallowForksIndexPlainly | scanner/scanner.go:43-135 | over a whole session of such chains, of any growth, the store is the plain index whenever nothing is half done, provided each broken run is followed by one that can resume |
| Failures.LaterBlocksRepairNothing | scanner/scanner.go:79-86 | two stores that differ below a height become the same through later blocks exactly when they differ only in votes cast again |
| Failures.DeepForkExactly | scanner/scanner.go:113-134 | after a rewind that saves an anchor the store is the plain index of the anchor's chain exactly when both chains give the same index below the target, but for votes missing anyway |
| Failures.DeepForkAtTip | scanner/scanner.go:51-134 | the same at the end of the run, where only votes cast again have been made up for; what stood below the target stays |
| Failures.BegunIsLeft | scanner/scanner.go:79-86 | a trusted store, with or without a block begun, differs from the plain index only by rows at the next height |
| Failures.AttemptIsLeft | scanner/scanner.go:79-86 | it stays so however many further blocks are begun at that height and not finished |
| Failures.OrphanedPartExactly | scanner/scanner.go:79-106 | finishing a block on what others at its height have left gives the plain index exactly when that part is harmless |
| Failures.OrphanedPartAtTip | scanner/scanner.go:51-106 | the same at the end of the run, where only votes cast again have been made up for |
| Failures.StaleCursorExactly | scanner/scanner.go:99-120 | resuming on a stale cursor leaves the plain index exactly when the store holds, from the rewind target up, the rows of the cursor's chain |
| Failures.StaleCursorAfterDelete | scanner/scanner.go:99-120 | if the delete was the last write, exactly when the deleted blocks hold no kept message |
| Failures.StaleCursorAtTip | scanner/scanner.go:51-120 | the same equivalence at the end of the run, but for votes cast again |
| Failures.StaleCursorAtTipAfterDelete | scanner/scanner.go:51-120 | if the delete was the last write before that run, again exactly when the deleted blocks hold no kept message |
| Reached.DeepForkIsReached | scanner/scanner.go:113-134 | for every depth, two runs from a new store that leave a story the chain does not have |
| Reached.OrphanedPartIsReached | scanner/scanner.go:104-106 | for every depth, two runs from a new store that leave an item the chain does not have |
| Reached.StaleCursorIsReached | scanner/scanner.go:118-132 | for every depth, three runs from a new store after which the store is empty although the chain tells a story |
| Reached.StalePartIsReached | scanner/scanner.go:118-132 | for every depth, three runs from a new store that leave an item of a first block begun after a delete, on a chain without messages |
| Reached.LateAcceptanceIsReached | scanner/scanner.go:79-84 | for every depth, two runs from a new store that keep a comment the plain index of the chain refuses |
| Reached.AssumptionsCanHold | scanner/scanner.go:12-18 | the assumptions about the node are met by a chain that carries a story, a comment on it and a vote for it |
| Threads.ChainIsClosed | scanner/scanner.go:191-228 | in the index of a chain every parent and vote target is a stored item at a strictly earlier place |
| Threads.CutKeepsClosed | store/memory.go:82-105 | no cut leaves a reference without its item |
| Threads.PlainPassIsClosed | scanner/scanner.go:46-88 | the same for the scanner's own store after any rewinds |
| Threads.OneThreadEach | store/memory.go:365-391 | every comment lies in the thread of exactly one item that is not a comment |
| Threads.ThreadsHoldEveryComment | store/memory.go:365-391 | the sizes of those threads add up to the number of comments |
| Threads.AuthorSurvivesNewBlocks | store/memory.go:226-255 | later blocks never change the author of a story that has one |
| Threads.AuthorAfterCut | store/memory.go:226-255 | after a cut the author is the one the shorter chain gives |
| Queries.FirstAuthorIsUnique | store/memory.go:228-244 | with items at distinct places the author does not depend on the order of the walk |
| Queries.TallyIsConserved | store/memory.go:146-155 | a vote moves its target's tally by new weight minus old weight, and no other tally |
| Queries.TallyExactly | store/memory.go:199-214 | upvotes are the votes of kind 4 on the target, downvotes those of kind 5 |
| Queries.SelectedExactly | store/memory.go:284-301 | the filter keeps exactly the matching entries |
| Sorting.SortSorts | store/store.go:194-235 | sorting by an order gives a permutation, in order, in which entries that tie keep their order |
| Sorting.StableIsUnique | store/store.go:194-235 | what a stable sort by an order leaves is determined |
| Sorting.OrderedIsUnique | store/store.go:194-235 | where no two entries tie there is only one order for them |
| Sorting.SortInPlace | store/store.go:194-235 | the front of a slice is sorted in place and the rest stays |
| Queries.FeedOrders | store/store.go:194-216 | newest first and highest score first are orders |
| Queries.FeedOrdersExactly | store/store.go:194-216 | the two orders written out by score, height, transaction and output |
| Queries.ThreadOrder | store/store.go:219-226 | so is the order of a thread |
| Queries.ThreadOrderExactly | store/store.go:219-226 | it is by height, and at one height by the bytes of the ids |
| Queries.TextKeepsOrder | codec/itemid.go:46-47 | ids are ordered by their texts as by their bytes |
| Queries.ThreadHolds | store/memory.go:354-391 | a thread holds a row for each comment under its root and for nothing else; the fields of a row |
| Queries.SortedIsThread | store/memory.go:385-391 | sorting the shown comments gives the thread |
| Queries.ThreadIsUnique | store/memory.go:365-391 | a thread does not depend on the order of any walk |
| Queries.ThreadInScanOrderExactly | store/store.go:218-226 | a thread is in scan order exactly when, within each block, the texts of the ids are |
| Queries.ThreadLeavesScanOrder | store/store.go:218-226 | two comments in one block that are shown against the order of the scan |
| Queries.SortedSelectionIsAnswer | store/memory.go:284-317 | filtering and sorting a full feed gives every matching story once, in order |
| Queries.AnswerHolds | store/memory.go:257-301 | an answer holds the entries of exactly the stories that pass the filter; the fields of an entry |
| Queries.AnswerIsUnique | store/memory.go:284-317 | where no two entries tie the answer depends only on the index and the query |
| Queries.NewFeedIsUnique | store/memory.go:311-317 | with items at distinct places that holds for newest first |
| Queries.PagesAreEverything | store/store.go:243-257 | consecutive pages of a positive size are the whole list, nothing lost or repeated |
| Queries.PageExactly | store/store.go:243-257 | which stretch of the list a page is, for any limit and offset |
| Store.MemoryStore.DeleteFromHeight | store/memory.go:82-105 | the three map walks, in any order, leave the cut index |
| Store.MemoryStore.PutItem | store/memory.go:107-116 | first write wins; both maps change together |
| Store.MemoryStore.PutVote | store/memory.go:146-155 | the stored vote stays unless the new one is later |
| Store.MemoryStore.ItemByOutpoint | store/memory.go:182-190 | with exact outpoints, finds the item of an outpoint exactly when there is one |
| Store.MemoryStore.Tally | store/memory.go:199-214 | in any order of the walk, the votes of kind 4 minus those of kind 5 |
| Store.MemoryStore.CommentCount | store/memory.go:216-224 | the number of direct comments |
| Store.MemoryStore.FirstCommentAuthor | store/memory.go:226-244 | the author of a direct comment that none precedes, or the zero key when there is none |
| Store.MemoryStore.Thread | store/memory.go:354-391 | for any comments, cycles included, exactly those whose parent chain reaches the root, each once, by height and then by id; the walk ends |
| Store.MemoryStore.BuildFeed | store/memory.go:257-282 | one entry for every story with an item row |
| Store.MemoryStore.FilterInPlace | store/memory.go:284-301 | the filter that overwrites the slice it reads keeps exactly the matching entries in order |
| Store.MemoryStore.NewFeed | store/memory.go:311-317 | a page of the complete answer; of two entries the first has the greater height, or transaction, or output |
| Store.MemoryStore.FrontPage | store/memory.go:303-309 | a page of a complete answer; of two entries the first has the greater score, or no smaller height |
| ScannerModel.Scanner.StoryFromMsg | scanner/scanner.go:246-269 | filled in turn: url is the first tuple tagged 1, body 2, language 3, subtype the first byte of 5, media hash 6, and the flag is set exactly when a tuple is tagged 4 |
| ScannerModel.Scanner.CommentFromMsg | scanner/scanner.go:271-286 | the same for comments: url 1, body 2, language 3, reply quote 7 |
| ScannerModel.Scanner.Persist | scanner/scanner.go:173-239 | the rules and writes of one message, stopping at the first store call that fails; a signature that does not verify leaves everything as it was |
| ScannerModel.Scanner.ProcessBlock | scanner/scanner.go:137-168 | the nested loops process the block's messages in canonical order, stopping at a failure |
| ScannerModel.Scanner.Rewind | scanner/scanner.go:111-135 | deletes, asks for the anchor and saves the cursor, with every early return |
| ScannerModel.Scanner.Resume | scanner/scanner.go:90-109 | start, go on or rewind, by the cursor and the node's hash at its height; an error of the node leaves the store as it was |
| ScannerModel.Scanner.Run | scanner/scanner.go:43-88 | the loop refines the run function, keeps a sound store sound, and deletes rows only where an answer shows a replaced block |

## Left out

- SHA-256, tagged hashing's digest and BIP-340 verification: parameters of the model (`Primitives`).
- The SQLite backend: only its vote guard is compared; WAL, pragmas and row scanning are not modelled.
- Continuation chunks: no query returns them; their item rows and store call are kept, the chunk map is not.
- `rankScore`: a parameter of the queries (`Ranking`) with real values; the power, the rounding and the clock are not modelled. Which of two stories of equal score and height `FrontPage` puts first depends on map order.
- `FindAll` (all values of a tag), `ItemsByAuthor` and `ByAuthor` (the feed and the comments, filtered by author), `ListTopics` (the topics by creation height), `GetItem` (one feed entry), `ByTopic` (`NewFeed` for one topic).
- `sort.SliceStable`: an insertion sort stands in for the library's algorithm; what a stable sort leaves is determined (`StableIsUnique`).
- 64-bit heights and numbers are unbounded integers; block heights, transaction indexes and the rewind depth are natural numbers.
- Mutexes, contexts and logging; the RPC client, the API, the web page and the process around them.
