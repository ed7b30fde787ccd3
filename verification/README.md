# BeShare: a model with proofs

BeShare is a peer-to-peer file-sharing client. This project models its five cores
in Dafny and proves what they are for.

* **Hashing** (`Words`, `Rfc1321`, `Md5`, `HashFile`, `DigestCache`). The streaming MD5
  context, with its block buffer, two-word counter and unrolled rounds, refines
  RFC 1321 sections 3.1 to 3.5. The range hasher on top of it digests exactly the
  intended slice. The digest cache is a state machine in which edits and any number of
  hash calls interleave between system calls.
* **Transfer** (`Resume`, `Chunk`, `Transfer`, `Sending`, `Session`, `Completion`,
  `TransferSession`). The resume
  handshake, the chunk format, and the two peers with a first-in first-out channel
  between them. `Transfer` holds the handlers as functions, `Sending` what an upload sends
  over all its calls, `Session` the runs and their invariant, `Completion` what becomes of
  every requested file, `TransferSession` the session objects whose methods refine the
  handlers.
* **Scheduling** (`Scheduler`, `Resort`, `Dequeue`, `TransferList`). Passes with their
  limits, the shortest-first rewrite, and the guarded recursion between dequeueing,
  pausing and resuming. `TransferList` holds the list of session objects and the methods
  that change it in place.
* **Search results** (`Paging`, `ResultsWindow`) and smaller window logic (`MoveItems`,
  `MessageEquality`, `NameCompletion`).
* **Server connection** (`SendQueue`, `ShareIndex`). The two-priority send queue with flow
  control, and the index of shared files with its reference counts and removal batches.

A class here is a class of the program, and a function beside it is its specification;
`State()`, `Views()` and `View()` map the one to the other.

## What does not hold

Where the code falls short of a property, the code is modelled as it is, the failure is
a lemma, and a condition is proved under which the property holds and without which it does
not. The condition is on the state before the step that can fail.

* `HashFileMD5` samples a file's size and modification time in two calls. An edit between
  them can put a digest into the cache that a later call wrongly hits. The cache stays
  coherent if and only if every sampled pair belongs to some version of the file
  (`DigestCache.StepKeepsInvIff`, `DigestCache.UnrealSampleGoesStale`).
* An edit between a call's sampling and its reading of the attribute makes a hit outdated:
  it can even be the digest of contents the file never had. Without such an edit a hit is
  right (`DigestCache.CacheHitsAreFresh`, `DigestCache.OutdatedSampleGoesStale`,
  `DigestCache.MixedDigestIsHit`).
* `HashFileMD5` does not look at the result of its seek. When it fails, success is reported
  with the digest of the beginning of the file (`HashFile.DigestsIntendedIff`), and the
  resume handshake can grant an offset to files that only start alike
  (`Resume.UnsoughtAgree`).
* A start sends bytes at once and so changes the sort key within the call that sorted: the
  shortest-first order need not settle. It does if and only if the uploads chosen to start
  will be in order with the others (`Dequeue.SettlesIff`); two uploads and one slot show
  a call that does not (`Dequeue.DequeueMayNotSettle`).
* With partial hashes, a download renamed to the name of another requested file can be
  continued as that file (`Session.HeaderKeepsRequestedIff`, `Session.NameClashIsGranted`).
* Whatever the hashes, a download that was renamed to the name of another request takes that
  one out of the requests (`Completion.ClashForgets`, `Session.CompletedIsForgottenIff`);
  without such a clash nothing is forgotten (`Completion.NothingIsForgotten`).
* A header that continues a partial file which no longer has the promised size starts a
  new, empty file, but the bytes done are still counted from the promised offset
  (`Session.HeaderInStepIff`).
* `DoUploadAux` goes on with a file whose size or position cannot be had, without sending
  its header (`Session.OpeningInStepIff`, `Session.UnpositionedFileIsAppended`).
* A download that was renamed stays in the set of files to request after a restart, because
  the sets are keyed by the requested name (`Session.CompletedIsForgottenIff`).
* `PauseAllUploads` does not leave the uploads halted when a re-sort is due
  (`Dequeue.PauseHaltsIff`).
* A file replaced before the batch that added it has ended comes back as a dangling
  result (`Paging.RemoveKeepsInvIff`, `Paging.PendingRemovedItemReturns`), and
  `ClearResults` does not empty the pending adds (`Paging.ClearKeepsInvIff`).
* A queue stalls when a request for a drain notification fails (`SendQueue.StallsIff`).
* Names stay counted when a tracked node is entered again (`ShareIndex.StaysExactIff`,
  `ShareIndex.CountsAreExactIff`).

## Assumptions

* Edits of a hashed file leave a size and 32-bit time that the file has not had before.
* During a transfer the shared files do not change, nobody else writes to the download
  directory, and the seeks of the handshake work. With whole-file hashes, different contents
  that are compared do not share a digest. With partial hashes only the tail is checked, so
  requested files already on disk are taken to be prefixes, and generated names not to be
  names of other requested files. `Completion.NothingIsForgotten` takes the latter for all
  hashes, and no requested name to be empty.
* A scheduler's list has fewer than 2^31 sessions. During one call of the dequeueing methods
  an upload's bytes left change only where the call itself starts it, by any amount.
* The page size is positive and fixed. Handles are stored trimmed, as
  `source/beshare/ShareWindow.cpp:3798` stores them. Batches are well nested. A flattened
  message has at least 12 bytes and less than 2^31.

## Model

| member | source | states |
|---|---|---|
| Rfc1321.PadIsInjective | source/beshare/md5.cpp:111-136 | Padding loses nothing: below 2^61 bytes two messages with the same padded form are equal (beyond, the 64-bit length wraps) |
| Md5.F1Bits | source/beshare/md5.cpp:143-146 | The optimised F1 is the function F of section 3.4 of RFC 1321, for all 2^96 arguments |
| Md5.F2Bits | source/beshare/md5.cpp:147 | F2, which is F1 with its arguments rotated, is the function G |
| Md5.Step | source/beshare/md5.cpp:151-152 | The MD5STEP macro, which adds in another order, computes the operation of section 3.4 with wrapping addition |
| Md5.Round1First | source/beshare/md5.cpp:169-176 | Steps 1-8, with their registers in place, are operations 1-8 of the RFC, whose registers rotate |
| Md5.Round1Second | source/beshare/md5.cpp:177-184 | Steps 9-16 are operations 9-16 |
| Md5.Round2First | source/beshare/md5.cpp:186-193 | Steps 17-24 are operations 17-24, whose word index is (5i+1) mod 16 |
| Md5.Round2Second | source/beshare/md5.cpp:194-201 | Steps 25-32 are operations 25-32 |
| Md5.Round3First | source/beshare/md5.cpp:203-210 | Steps 33-40 are operations 33-40, whose word index is (3i+5) mod 16 |
| Md5.Round3Second | source/beshare/md5.cpp:211-218 | Steps 41-48 are operations 41-48 |
| Md5.Round4First | source/beshare/md5.cpp:220-227 | Steps 49-56 are operations 49-56, whose word index is 7i mod 16 |
| Md5.Round4Second | source/beshare/md5.cpp:228-235 | Steps 57-64 are operations 57-64 |
| Md5.MD5Context.constructor | source/beshare/md5.cpp:55-68 | An initialised context has absorbed nothing |
| Md5.MD5Context.Transform | source/beshare/md5.cpp:159-241 | The block transform is the compression function of section 3.4 |
| Md5.CounterCarry | source/beshare/md5.cpp:77-79 | The comparison that detects the carry keeps the two words equal to the byte count modulo 2^64 |
| Md5.CounterBits | source/beshare/md5.cpp:132-134 | The shifted counter words are the low and high words of 8 times the length modulo 2^64 |
| Md5.UpdateSplit | source/beshare/md5.cpp:87-105 | Whatever is already buffered, the three parts MD5Update cuts the data into leave exactly the whole 64-byte blocks absorbed and the rest buffered |
| Md5.UpdateFits | source/beshare/md5.cpp:81-85 | Data that leaves the block open only joins what is buffered |
| Md5.FinalSplit | source/beshare/md5.cpp:111-135 | For each of the 64 residues the padding written, in one block or spilling into two, is the padding of sections 3.1 and 3.2 |
| Md5.MD5Context.Count | source/beshare/md5.cpp:77-79 | The counter words after the update |
| Md5.MD5Context.UpdateBlocks | source/beshare/md5.cpp:93-104 | The block loop absorbs all whole blocks and buffers the rest |
| Md5.MD5Context.Append | source/beshare/md5.cpp:81-105 | Whatever is buffered, the context has absorbed the data as well |
| Md5.MD5Context.Update | source/beshare/md5.cpp:74-105 | The context has absorbed the old message followed by the data: so any way of cutting a message into updates is the same |
| Md5.MD5Context.Final | source/beshare/md5.cpp:111-141 | The digest is the RFC 1321 digest of everything absorbed; the context is wiped |
| Md5.DigestOfPieces | source/beshare/md5.cpp:55-141 | However a message is cut into pieces, initialising, updating with each and finishing gives the RFC 1321 digest of the whole |
| HashFile.UndisturbedIff | source/beshare/md5.cpp:300-319 | However short the reads are, if none fails and the flag is not seen the read loop stops early if and only if bytes are missing |
| HashFile.FailedReadInterrupts | source/beshare/md5.cpp:300-319 | A read that returns nothing, or after which the shutdown flag is seen, fails the call unless the reads before it can have been enough |
| HashFile.HashRange | source/beshare/md5.cpp:298-326 | The loop digests exactly the wanted bytes, however the reads are cut, and fails if and only if a read comes back empty too early or the shutdown flag is seen |
| HashFile.DigestsUnlessInterrupted | source/beshare/md5.cpp:252-322 | With a working seek a call fails if and only if the intended slice does not exist or a read of it is interrupted; this covers the wrap-around of offset+len |
| HashFile.UndisturbedDigestsIntended | source/beshare/md5.cpp:252-322 | An undisturbed call always digests the intended slice, in all four modes |
| HashFile.DigestsIntendedIff | source/beshare/md5.cpp:286-297 | A call that succeeds without the cache digested the intended slice if and only if its seek worked or it had none to do |
| HashFile.HashFileMD5 | source/beshare/md5.cpp:244-339 | It succeeds if and only if the slice the lemmas above speak of exists, and returns its digest and length; the attribute is written after a whole-file success and at no other time, so the cache stays coherent and a hit agrees with the contents |
| DigestCache.SameSizeIsReal | source/beshare/md5.cpp:252 | Size and time are those of one version when no edit that changed the size fell between the two calls that sample them |
| DigestCache.EditKeepsInv | source/beshare/md5.cpp:252-275 | An edit, also in the middle of any number of hash calls, keeps the cache coherent |
| DigestCache.StepKeepsInvIff | source/beshare/md5.cpp:252-337 | Each event keeps the cache invariant if and only if the size and time it samples are those of some version |
| DigestCache.RunKeepsInv | source/beshare/md5.cpp:252-337 | The invariant holds after every run in which all samples are real |
| DigestCache.CacheHitsAreFresh | source/beshare/md5.cpp:254-275 | After every such run a cache hit is the digest of the current contents, if no edit came between the sampling and the reading of the attribute |
| DigestCache.OutdatedSampleGoesStale | source/beshare/md5.cpp:252-275 | A hit after such an edit is wrong, or one more edit makes it so |
| DigestCache.MixedDigestIsHit | source/beshare/md5.cpp:252-337 | It can be the digest of contents the file never had, although all samples are real: a concrete run |
| DigestCache.UnrealSampleIsStored | source/beshare/md5.cpp:252-337 | A call with an unreal sample can store any digest under a stamp the file never had |
| DigestCache.UnrealSampleGoesStale | source/beshare/md5.cpp:252-337 | Wherever a sample is not real, some continuation of the run ends in a cache hit with the digest of other contents |
| DigestCache.TornSample | source/beshare/md5.cpp:252 | A concrete run with such a sample: one edit between GetSize and GetModificationTime |
| Resume.DescribePartial | source/beshare/ShareFileTransfer.cpp:138-153 | What the downloader sends about a partial file: its size, how many bytes were hashed and the digest of the slice that was; an offset of zero when it could not be hashed |
| Resume.VerifyRequest | source/beshare/ShareFileTransfer.cpp:170-214 | The offset is granted if and only if the digest is well formed and equals the digest of the slice the swapped arguments denote; otherwise 0 is |
| Resume.SameInterval | source/beshare/ShareFileTransfer.cpp:140-152 | For every partial size and partial-hash size both sides hash the same interval [offset-n, offset), which exists at the uploader if and only if the partial file is not longer than the source |
| Resume.HashesTail | source/beshare/ShareFileTransfer.cpp:147 | The downloader hashes the last n bytes of its partial file, or the first n if the seek fails, and always succeeds undisturbed |
| Resume.HashesInterval | source/beshare/ShareFileTransfer.cpp:190-208 | The uploader hashes [offset-n, offset) of its own file, or the first n bytes if the seek fails, and undisturbed succeeds if and only if the offset is inside the file |
| Resume.Handshake | source/beshare/ShareFileTransfer.cpp:176-209 | End to end: the granted offset is 0 or the partial size; it is positive only if the hashed slices agree, and always then when no read is disturbed |
| Resume.SoughtAgreeIff | source/beshare/ShareFileTransfer.cpp:176-209 | Where the seeks work that means that the tails of the two files agree |
| Resume.UnsoughtAgree | source/beshare/ShareFileTransfer.cpp:176-209 | Where they fail, files that merely start alike are granted the offset |
| Resume.FullVerificationIsPrefix | source/beshare/ShareFileTransfer.cpp:176-209 | With whole-file hashes a granted offset means the partial file is a prefix of the source |
| Chunk.CalculateChecksum | source/beshare/ShareFileTransfer.cpp:676-683 | The loop computes the position-weighted sum modulo 2^32, whose weights the next three members determine |
| Chunk.WeightsDouble | source/beshare/ShareFileTransfer.cpp:681 | The first weight is 1 and each of the 24 is twice the one before it |
| Chunk.SumOfOneByte | source/beshare/ShareFileTransfer.cpp:681 | A byte among zeros counts as itself at every 24th position, and elsewhere twice what it would count one position earlier |
| Chunk.SumAfterChange | source/beshare/ShareFileTransfer.cpp:681 | The sum is linear: changing byte i by d changes it by d times the weight of i modulo 24, which is 2^(i mod 24) |
| Chunk.ChangedByteIsDetected | source/beshare/ShareFileTransfer.cpp:676-683 | A chunk of any length with any single byte changed never keeps its checksum |
| Chunk.FlipAllTwice | source/beshare/ShareFileTransfer.cpp:713-722 | XOR munging undoes itself |
| Chunk.XorBuffer | source/beshare/ShareFileTransfer.cpp:720-722 | The in-place loop flips every byte of the valid part of the buffer |
| Chunk.PackChunk | source/beshare/ShareFileTransfer.cpp:713-742 | The message a chunk is packed into, for every munge mode including unknown ones |
| Chunk.UnpackChunk | source/beshare/ShareFileTransfer.cpp:1079-1131 | What the receiver restores in place, and exactly when it aborts |
| Chunk.ReceiveAfterSend | source/beshare/ShareFileTransfer.cpp:713-742 | Receiving what was sent is the identity in every munge mode, with the checksum accepted |
| Chunk.AlteredChunkIsRejected | source/beshare/ShareFileTransfer.cpp:1088-1107 | A sent chunk with one byte altered on the way aborts the session, munged or not |
| Chunk.FlipIsComplement | source/beshare/ShareFileTransfer.cpp:720-722 | The exclusive or turns a byte b into 255-b |
| Chunk.WhatIsSent | source/beshare/ShareFileTransfer.cpp:713-742 | On the wire are the complements of the bytes in mode XOR and the bytes themselves in every other mode, with the checksum of what is sent |
| Chunk.AcceptedIff | source/beshare/ShareFileTransfer.cpp:1079-1131 | A chunk is accepted if and only if its checksum and its mode, where it carries them, are right and known |
| Transfer.UploadStepDecreases | source/beshare/ShareFileTransfer.cpp:685-863 | Twice the files left plus one for an open file decreases whenever DoUploadAux asks to be called again |
| Transfer.SmallFileIsSentAtOnce | source/beshare/ShareFileTransfer.cpp:695-863 | One call of DoUpload sends a single file whose rest fits into a chunk, header and all, and leaves nothing |
| Transfer.RunNeverGrows | source/beshare/ShareFileTransfer.cpp:685-703 | Nor does the key increase over a whole call of DoUpload |
| Transfer.BytesLeftNeverGrows | source/beshare/ShareFileTransfer.cpp:1686-1703 | The bytes-left sort key never increases over any upload step when shared sizes are actual sizes |
| Sending.StallsIff | source/beshare/ShareFileTransfer.cpp:695-863 | A step sends nothing, asks for no other and does not end the session if and only if the session waits or is aborted, or a file cannot be opened or read |
| Sending.IdleOrAborted | source/beshare/ShareFileTransfer.cpp:695-763 | A waiting or aborted session neither sends nor changes; a read error, and nothing else, aborts |
| Sending.SentInMode | source/beshare/ShareFileTransfer.cpp:713-731 | Every chunk goes out in the mode that the peer asked for, if it is a known one, and holds 8192 bytes at most |
| Sending.StepConserves | source/beshare/ShareFileTransfer.cpp:695-863 | What a step sends is taken from the front of what was left to send: the rest of the open file, then a header and the granted rest of each file to come |
| Sending.RunSends | source/beshare/ShareFileTransfer.cpp:685-693 | A call of DoUpload in which no file fails sends exactly one chunk, or none and the session is finished |
| Sending.WholePlanIsSent | source/beshare/ShareFileTransfer.cpp:685-863 | However the reads divide the files: what all calls together have sent is a beginning of what the grants ask for, and is all of it, with the session finished, after no more calls than files, bytes and one |
| Sending.BytesLeftIsWhatIsLeft | source/beshare/ShareFileTransfer.cpp:1686-1703 | The sort key is the number of bytes still to be sent, counting files not yet begun from their first byte |
| Sending.BytesLeftFalls | source/beshare/ShareFileTransfer.cpp:1686-1703 | It falls by exactly the bytes a step sends, and by those it skips when it opens a file |
| Session.StreamExtends | source/beshare/ShareFileTransfer.cpp:695-863 | Whatever is under way, what the uploader sends next continues it |
| Session.SendKeepsInv | source/beshare/ShareFileTransfer.cpp:695-863 | Every upload step keeps downloader, channel and uploader in agreement |
| Session.HeaderKeepsInv | source/beshare/ShareFileTransfer.cpp:932-1074 | So does every header, accepted or not, renamed or continued |
| Session.DataKeepsInv | source/beshare/ShareFileTransfer.cpp:1077-1149 | So does every chunk, also one that is only partly written |
| Session.ConnectKeepsInv | source/beshare/ShareFileTransfer.cpp:176-209 | So does every new connection with the offsets the handshake grants |
| Session.StepKeepsInv | source/beshare/ShareFileTransfer.cpp:622-657 | Every event, with disconnections, aborts and restarts at any point, keeps the invariant |
| Session.WaitingKeepsInv | source/beshare/ShareFileTransfer.cpp:1671-1677 | An upload that is requeued or begins again in the middle of a file keeps the invariant |
| Session.RunKeepsInv | source/beshare/ShareFileTransfer.cpp:622-657 | The invariant holds over whole runs |
| Session.DownloadsArePrefixes | source/beshare/ShareFileTransfer.cpp:932-1151 | At every point of every run each file the downloader wrote is a prefix of its source, and the open one is as long as the session counts |
| Session.FinishedDownloadIsComplete | source/beshare/ShareFileTransfer.cpp:748-753 | When the uploader has reached the end of the file and nothing is under way, or the count reaches the announced size, the download equals the source |
| Session.StepsOnlyAppend | source/beshare/ShareFileTransfer.cpp:962-982 | No event in any state shortens or alters what is on disk |
| Session.CompletedIsForgottenIff | source/beshare/ShareFileTransfer.cpp:1136-1138 | A file completed by a chunk leaves the request sets if and only if it was not renamed |
| Session.RequestsOnlyShrink | source/beshare/ShareFileTransfer.cpp:1648-1669 | No event adds a request |
| Session.ForgottenStaysForgotten | source/beshare/ShareFileTransfer.cpp:1648-1669 | A file once out of the request sets is not requested again through any run |
| Session.RestartsArePaidFor | source/beshare/ShareFileTransfer.cpp:1136 | No endless cycling: in every run at least as many chunks are accepted as the session restarts itself |
| Session.HeaderInStepIff | source/beshare/ShareFileTransfer.cpp:965-1007 | A continuing header opens a file of the promised length if and only if the partial file still has it; otherwise a new file is counted as if it held the earlier bytes |
| Session.HeaderKeepsRequestedIff | source/beshare/ShareFileTransfer.cpp:983-1007 | With partial hashes, an accepted header keeps what is on disk under requested names in step if and only if the name its file will get is that of no other request |
| Session.NameClashIsGranted | source/beshare/ShareFileTransfer.cpp:983-1007 | Otherwise the bytes of one file can be granted an offset as the beginning of another |
| Session.OpeningInStepIff | source/beshare/ShareFileTransfer.cpp:789-851 | Opening the next file keeps the peers in step if and only if it can be sized and positioned |
| Session.UnpositionedFileIsAppended | source/beshare/ShareFileTransfer.cpp:789-851 | A file that opens but cannot be positioned is sent without a header and corrupts the complete file before it |
| Completion.AbortIsTidy | source/beshare/ShareFileTransfer.cpp:1246-1276 | An aborted session waits anew if and only if it failed, was not told otherwise and is marked for it; then it has no current name and asks for all that is left of its original set |
| Completion.HeaderAcceptedIff | source/beshare/ShareFileTransfer.cpp:932-1074 | A header is accepted if and only if its file is still requested on this connection, is continued or gets a name, and can be opened; every other one aborts |
| Completion.DataAcceptedIff | source/beshare/ShareFileTransfer.cpp:1077-1149 | A chunk is accepted if and only if it decodes, has a file to go to and is written whole; what was written stays, and nothing else changes on disk |
| Completion.HeaderIsTidy | source/beshare/ShareFileTransfer.cpp:932-1007 | A header takes at most the name of the file before it from the requests, and counts one file |
| Completion.DataIsTidy | source/beshare/ShareFileTransfer.cpp:1077-1149 | A chunk takes a name from the requests only with the last byte of that file, and marks the session for a restart |
| Completion.DropRestartsIff | source/beshare/ShareFileTransfer.cpp:629-646 | A dropped connection is an error if and only if something is left to fetch, of the open file or after it, and the session waits anew if and only if it is also marked for that |
| Completion.StepKeeps | source/beshare/ShareFileTransfer.cpp:622-657 | Every event without a name clash keeps each requested file requested or complete |
| Completion.NothingIsForgotten | source/beshare/ShareFileTransfer.cpp:1648-1669 | After every run without name clashes each requested file is still requested or is on disk and equals the shared file; a waiting session asks for exactly the former; only requested files are written |
| Completion.ClashForgets | source/beshare/ShareFileTransfer.cpp:983-1007 | With a clash the request whose name was taken is lost, with another file under it, and the renamed file is requested again |
| TransferSession.UploadSession.ReadChunk | source/beshare/ShareFileTransfer.cpp:708-710 | A read returns bytes of the open file at its position, none only at its end |
| TransferSession.UploadSession.SendChunk | source/beshare/ShareFileTransfer.cpp:703-764 | One chunk sent, the end of a file, after which the next step follows at once, or an abort |
| TransferSession.UploadSession.NextFile | source/beshare/ShareFileTransfer.cpp:765-857 | The next file opened and announced, or the end of the file set |
| TransferSession.UploadSession.DoUploadAux | source/beshare/ShareFileTransfer.cpp:695-863 | The method refines the upload step of the run model |
| TransferSession.UploadSession.DoUpload | source/beshare/ShareFileTransfer.cpp:685-693 | The loop ends for every file set, refines the run of steps that `Sending` speaks of, sends at most one chunk, and never raises the bytes-left key |
| TransferSession.DownloadSession.AbortSession | source/beshare/ShareFileTransfer.cpp:1246-1276 | An error restarts a session that is marked for it, through the mutual recursion with RestartSession; the user's abort does not |
| TransferSession.DownloadSession.RestartSession | source/beshare/ShareFileTransfer.cpp:1648-1669 | The session is back at its start with what is left of the original file set and no current name, as `Completion.DropRestartsIff` and `NothingIsForgotten` require |
| TransferSession.DownloadSession.SessionDisconnected | source/beshare/ShareFileTransfer.cpp:622-651 | An unfinished session that got data restarts; a finished one ends without error |
| TransferSession.DownloadSession.HeaderReceived | source/beshare/ShareFileTransfer.cpp:932-1074 | The handler refines the header step of the run model |
| TransferSession.DownloadSession.OpenDownload | source/beshare/ShareFileTransfer.cpp:965-1007 | Continue, create under a free name, or fail |
| TransferSession.DownloadSession.DataReceived | source/beshare/ShareFileTransfer.cpp:1077-1149 | The handler refines the data step of the run model |
| Scheduler.CountAfterBegin | source/beshare/ShareFileTransfer.cpp:1548-1589 | Starting a session raises a count by at most one, and only counts the session belongs to |
| Scheduler.CountWithout | source/beshare/ShareWindow.cpp:2290-2301 | A session takes one slot of its direction and of its user unless it waits or has finished |
| Scheduler.ScanBounds | source/beshare/ShareWindow.cpp:2330-2344 | The scan never raises the active total by more than its starts, nor a user above the limit or what he had |
| Scheduler.PassRespectsLimits | source/beshare/ShareWindow.cpp:2325-2346 | A pass never raises the active sessions above max(limit, previous), nor an identified user's above max(per-user limit, previous), and leaves the other direction alone |
| Scheduler.UnknownUsersShareALimit | source/beshare/ShareWindow.cpp:2333-2340 | Sessions whose user is not known are together kept to the limit of one user |
| Scheduler.ScanIsComplete | source/beshare/ShareWindow.cpp:2330-2344 | The scan uses up its starts or leaves only sessions blocked by their user's count |
| Scheduler.PassIsComplete | source/beshare/ShareWindow.cpp:2325-2346 | When all waiting sessions could start, afterwards the limit is reached or each one still waiting is blocked by the per-user test |
| Scheduler.ScanServes | source/beshare/ShareWindow.cpp:2333-2344 | The loop, which counts in the list as it changes, gives each session its slot by a rule on the list as it was: it waits, earlier ones have left a slot, and its user has, with those of them that become active, fewer than the limit |
| Scheduler.PassServes | source/beshare/ShareWindow.cpp:2325-2346 | A pass begins exactly the sessions that this rule chooses beforehand |
| Scheduler.ScanIsFirstCome | source/beshare/ShareWindow.cpp:2333-2344 | A session that waits on while a later one started was blocked by its user's count or not enabled |
| Resort.SortedIsOrdered | source/beshare/ShareWindow.cpp:2216-2222 | The sort orders by bytes left, zero last, and permutes |
| Resort.SortedFixpoint | source/beshare/ShareWindow.cpp:2248-2260 | The sort changes the list if and only if it was out of order |
| Resort.RewriteFills | source/beshare/ShareWindow.cpp:2266-2279 | The rewrite puts the sorted uploads, in order, into the live upload positions |
| Resort.RewriteAt | source/beshare/ShareWindow.cpp:2266-2279 | It keeps everything else at its index |
| Resort.ResortedIsShortestFirst | source/beshare/ShareWindow.cpp:2216-2281 | The re-sorted list is a permutation, keeps downloads and finished or failed entries in place, and has its live uploads in nondecreasing order |
| Resort.ShortestFirstMeans | source/beshare/ShareWindow.cpp:2216-2281 | In the terms of the list: downloads, finished and failed sessions stay, and of two other uploads the later one has at least as much left, or nothing |
| Dequeue.PassTouches | source/beshare/ShareWindow.cpp:2325-2346 | A pass changes only enabled sessions of its direction |
| Dequeue.ResortRestoresLimits | source/beshare/ShareWindow.cpp:2226-2287 | After a call that re-sorts, active uploads are within the total and per-user limits, even where forced starts had exceeded them |
| Dequeue.StaysOrderedIff | source/beshare/ShareWindow.cpp:2216-2222 | Live uploads in order stay so through starts if and only if no started one falls below the one before it, or is done before one that is not: neighbours are enough |
| Dequeue.DequeueOnlyStarts | source/beshare/ShareWindow.cpp:2226-2287 | Once a call has re-sorted the list, if that was due, nothing changes but by starts: no key changes without one |
| Dequeue.DequeueStarts | source/beshare/ShareWindow.cpp:2224-2288 | What becomes of every upload and download is known before the starts, whatever the counter and the settings: it is begun, if the first-come rule chooses it in one of the rounds, and else stays as it is |
| Dequeue.DequeueServes | source/beshare/ShareWindow.cpp:2224-2288 | Each direction comes out of a call as the first-come rule serves it, once, or with a re-sort twice for uploads and three times for downloads |
| Dequeue.DownloadsStartIff | source/beshare/ShareWindow.cpp:2286-2287 | Where no waiting download is disabled, every call begins a download if and only if the first-come rule chooses it in the list as it was |
| Dequeue.DequeueIsComplete | source/beshare/ShareWindow.cpp:2224-2288 | When all waiting sessions of a direction could start, those that still wait after a whole call are blocked by the limit or by their user |
| Dequeue.DequeueRespectsLimits | source/beshare/ShareWindow.cpp:2224-2288 | A whole call leaves each direction within max(limit, what it was before the starts), in total and for every identified user |
| Dequeue.CountsBeforeStarts | source/beshare/ShareWindow.cpp:2262-2283 | A re-sort takes all uploads back before the starts and leaves the number of active downloads alone |
| Dequeue.SettlesIff | source/beshare/ShareWindow.cpp:2224-2288 | A call leaves nothing to re-sort if and only if the uploads that the first-come rule chooses will, with what they send at once, be in order with all the others; flags, limits and amounts are those before the starts |
| Dequeue.SettlesUnderAllLimits | source/beshare/ShareWindow.cpp:2224-2288 | It settles under all limits when the live uploads are in order whichever of them are started |
| Dequeue.UploadRunIsAStart | source/beshare/ShareFileTransfer.cpp:685-693 | Whatever the file system does, what a call of DoUpload leaves behind is what some start says |
| Dequeue.DequeueMayNotSettle | source/beshare/ShareWindow.cpp:2226-2287 | It need not: for every two uploads of which the shorter fits into what a start sends, the next call takes the one slot away from it again |
| Dequeue.ResortEnables | source/beshare/ShareWindow.cpp:2262-2283 | A re-sort ends with some upload enabled again |
| Dequeue.PauseHaltsIff | source/beshare/ShareWindow.cpp:5378-5393 | PauseAllUploads leaves all uploads halted if and only if no re-sort is due |
| Dequeue.ResumeForces | source/beshare/ShareWindow.cpp:5395-5408 | Resuming enables the waiting uploads that were disabled and begins those that were not; after two of them none waits |
| TransferList.ShareFileTransfer.DoUpload | source/beshare/ShareFileTransfer.cpp:685-693 | What a start sends at once lowers the bytes left, never raises them, and may fail the session |
| TransferList.ShareFileTransfer.BeginTransfer | source/beshare/ShareFileTransfer.cpp:1548-1589 | A start takes effect only on an enabled waiting session, and sends at once if that is a connected upload |
| TransferList.ShareFileTransfer.RequeueTransfer | source/beshare/ShareFileTransfer.cpp:1671-1677 | The session waits again |
| TransferList.ShareWindow.CountActiveSessions | source/beshare/ShareWindow.cpp:2290-2301 | The loop counts the active sessions of one direction, of everyone or of one user |
| TransferList.ShareWindow.TryBegin | source/beshare/ShareWindow.cpp:2333-2341 | One entry of the scan: started if and only if it waits and its user has a slot |
| TransferList.ShareWindow.DequeueDirection | source/beshare/ShareWindow.cpp:2325-2346 | The loop over the list of objects refines the pass |
| TransferList.SortChangesIff | source/beshare/ShareWindow.cpp:2240-2260 | Comparing the two object lists decides exactly whether a re-sort is due |
| TransferList.ViewsOfSorted | source/beshare/ShareWindow.cpp:2243-2244 | Sorting the objects sorts what they look like |
| TransferList.PauseKeepsLive | source/beshare/ShareWindow.cpp:5378-5393 | Pausing changes neither which uploads the rewrite will replace nor how much they have left, so the list sorted before it is still right |
| TransferList.ShareWindow.RewriteList | source/beshare/ShareWindow.cpp:2266-2279 | Although it overwrites positions of the list it scans, the loop computes the rewrite of the original list, and no object is lost or doubled |
| TransferList.ShareWindow.Resort | source/beshare/ShareWindow.cpp:2262-2284 | Pause, rewrite and resume, one level down the recursion |
| TransferList.ShareWindow.DequeueTransferSessions | source/beshare/ShareWindow.cpp:2224-2288 | The mutual recursion terminates by its counter and refines the function the theorems are about; the list stays a rearrangement |
| TransferList.ShareWindow.PauseAllUploads | source/beshare/ShareWindow.cpp:5378-5393 | Likewise for pausing |
| TransferList.ShareWindow.ResumeAllUploads | source/beshare/ShareWindow.cpp:5395-5411 | Likewise for resuming |
| Paging.PagesAreDisjoint | source/beshare/ShareWindow.cpp:3975-4006 | Under the invariant pages share no item with each other or the pending adds, and hold known files only |
| Paging.AddKeepsInv | source/beshare/ShareWindow.cpp:4107-4120 | Adding a new file keeps the invariant |
| Paging.FillKeepsPages | source/beshare/ShareWindow.cpp:3985-4000 | Ending a batch puts every pending item on exactly one page and displays exactly those that went to the current page |
| Paging.FillIsFirstFit | source/beshare/ShareWindow.cpp:3985-4000 | A page gets new items only when every page before it is full |
| Paging.FillKeepsArrival | source/beshare/ShareWindow.cpp:3985-4000 | Over the pages the new items are in the order in which they came |
| Paging.EndBatchKeepsInv | source/beshare/ShareWindow.cpp:3975-4006 | Ending a batch keeps the invariant and leaves nothing pending |
| Paging.SwitchKeepsInv | source/beshare/ShareWindow.cpp:4220-4241 | Switching to any page number, in range or not, keeps the invariant |
| Paging.SwitchShows | source/beshare/ShareWindow.cpp:4220-4241 | A number beyond the last page shows the last page, a negative one the first |
| Paging.RemoveKeepsInvIff | source/beshare/ShareWindow.cpp:4196-4218 | Removing a known file keeps the invariant if and only if it is not still pending |
| Paging.RemoveShows | source/beshare/ShareWindow.cpp:4196-4218 | After a removal the pages keep their order; the shown page stays shown, unless the item was its last: then the page before is, or the first of the others where there is none before |
| Paging.ClearKeepsInvIff | source/beshare/ShareWindow.cpp:3943-3957 | Clearing keeps the invariant if and only if nothing is pending |
| Paging.StepKeepsInvIff | source/beshare/ShareWindow.cpp:3943-4006 | Every operation keeps the invariant if and only if it takes no pending item away |
| Paging.RunKeepsInv | source/beshare/ShareWindow.cpp:3943-4006 | In every interleaving of the five operations the pages, the display, the pending adds and the byte total agree with the plain set of known files |
| Paging.PendingRemovedItemReturns | source/beshare/RemoteUserItem.cpp:176-185 | A file replaced within its batch comes back on a page although it is gone |
| ResultsWindow.ShareWindow.AddFileItem | source/beshare/ShareWindow.cpp:4107-4120 | The method refines the addition |
| ResultsWindow.ShareWindow.FillFromPending | source/beshare/ShareWindow.cpp:3984-4000 | The retry loop terminates and fills the pages as specified |
| ResultsWindow.ShareWindow.EndBatchFileResultUpdate | source/beshare/ShareWindow.cpp:3975-4006 | Ending a batch in place keeps a valid window valid |
| ResultsWindow.ShareWindow.SwitchToPage | source/beshare/ShareWindow.cpp:4220-4241 | Switching in place keeps a valid window valid |
| ResultsWindow.ShareWindow.RemoveFileItem | source/beshare/ShareWindow.cpp:4196-4218 | The method refines the removal that `Paging.RemoveShows` speaks of; the window stays valid if and only if the removed item was not pending |
| ResultsWindow.ShareWindow.ClearResults | source/beshare/ShareWindow.cpp:3943-3957 | All users lose their files; the window stays valid if and only if nothing was pending |
| ResultsWindow.RemoteUserItem.PutFile | source/beshare/RemoteUserItem.cpp:176-185 | The new file replaces the one of that name, and the window stays valid if and only if that one was not pending |
| ResultsWindow.RemoteUserItem.RemoveFile | source/beshare/RemoteUserItem.cpp:188-198 | The file of that name goes, from the user and from the window |
| ResultsWindow.RemoteUserItem.ClearFiles | source/beshare/RemoteUserItem.cpp:163-174 | All the user's files go, from the user and from the window, in whatever order |
| MoveItems.MovedKeepsOrder | source/beshare/ShareWindow.cpp:708-737 | A pass keeps the order of the movers and the order of the others |
| MoveItems.MovesByOneIff | source/beshare/ShareWindow.cpp:708-737 | Each mover shifts by exactly one place if and only if some item that does not move lies on that side of it |
| MoveItems.LoopStep | source/beshare/ShareWindow.cpp:721-729 | One turn of the loop, in either direction, keeps the progress invariant |
| MoveItems.ListView.MoveEach | source/beshare/ShareWindow.cpp:719-729 | The pass of adjacent swaps in place computes the move |
| MoveItems.ListView.MoveSelectedItems | source/beshare/ShareWindow.cpp:708-737 | The whole operation, which ends with the same items selected |
| MessageEquality.EqualIff | source/beshare/ShareWindow.cpp:5277-5284 | Two well-formed messages compare equal if and only if they have the same code and the same map from names to types and values, to any depth |
| MessageEquality.SupersetIff | source/beshare/ShareWindow.cpp:5286-5324 | IsFieldSuperset decides inclusion of the two maps |
| MessageEquality.EqualityIsEquivalence | source/beshare/ShareWindow.cpp:5277-5284 | The comparison is reflexive, symmetric and transitive |
| MessageEquality.SecondSupersetIsImplied | source/beshare/ShareWindow.cpp:5280-5282 | With equal field counts the second call is implied by the first |
| NameCompletion.OneMoreName | source/beshare/ShareWindow.cpp:4355-4366 | Chopping at the first difference turns the longest common prefix of some names into that of one more |
| NameCompletion.CaseIsIgnored | source/beshare/ShareWindow.cpp:4345 | Two characters are compared as equal exactly when they are the same letter or character, in whatever case |
| NameCompletion.MatchingIff | source/beshare/ShareWindow.cpp:4341-4348 | A name is among the matching ones if and only if some user that passes the filter has a handle that is it, up to case, and begins with the typed text |
| NameCompletion.MatchUserName | source/beshare/ShareWindow.cpp:4335-4372 | The count of matching users and, up to case, the longest common prefix of their names, which extends the typed text, in the case of the first match |
| NameCompletion.SameUsersSameNames | source/beshare/ShareWindow.cpp:4341-4348 | Users in another order give the same matching names, as often |
| NameCompletion.OrderDoesNotMatter | source/beshare/ShareWindow.cpp:4335-4372 | Count and result, up to case, do not depend on the order in which the users come |
| SendQueue.RoundFromIsRound | source/beshare/ShareNetClient.cpp:221-228 | A round sends the fewest messages that reach 4096 bytes, or all |
| SendQueue.RoundIsUnique | source/beshare/ShareNetClient.cpp:221-228 | That determines the round |
| SendQueue.OneRound | source/beshare/ShareNetClient.cpp:221-230 | A round sends at least one message, none after those that make 4096 bytes, and fewer only if there are no more |
| SendQueue.StepKeepsInv | source/beshare/ShareNetClient.cpp:199-231 | Every event keeps sent ++ queued equal to what was enqueued since the last clear, and exactly one drain notification due while the sender waits |
| SendQueue.StallsIff | source/beshare/ShareNetClient.cpp:229 | A round leaves messages without a notification due if and only if its request failed and it did not empty the queue |
| SendQueue.ConnectedSends | source/beshare/ShareNetClient.cpp:96-149 | A connection that was made carries a first message at once; without one it is dropped |
| SendQueue.RunKeepsInv | source/beshare/ShareNetClient.cpp:199-231 | Over every run: first in, first out, and no stall while the requests succeed |
| SendQueue.DrainsEmptyTheQueue | source/beshare/ShareNetClient.cpp:363-366 | As many notifications as there are messages waiting empty the queue |
| SendQueue.ShareNetClient.SendMessageToSessions | source/beshare/ShareNetClient.cpp:199-213 | Urgent messages go out at once, others are queued, both only while connected |
| SendQueue.ShareNetClient.CheckSendMoreLowPriorityMessages | source/beshare/ShareNetClient.cpp:215-231 | The loop sends one round, oldest first, and asks for a notification; nothing is lost between queue and network thread |
| SendQueue.ShareNetClient.OutputQueuesDrained | source/beshare/ShareNetClient.cpp:363-366 | A notification starts the next round |
| SendQueue.ShareNetClient.DisconnectFromServer | source/beshare/ShareNetClient.cpp:119-149 | A disconnection forgets what was waiting |
| ShareIndex.StepConserves | source/beshare/ShareNetClient.cpp:492-577 | Each event keeps every name's count equal to its tracked nodes plus the leaks so far |
| ShareIndex.RunConserves | source/beshare/ShareNetClient.cpp:492-577 | So does every run, in which nothing is watched or tracked without a connection: a count is never below the number of tracked nodes |
| ShareIndex.TrackedIsCounted | source/beshare/ShareNetClient.cpp:1423-1438 | No tracked file's name is missing from the index |
| ShareIndex.ExactIff | source/beshare/ShareNetClient.cpp:1423-1438 | The counts are exact if and only if nothing has leaked |
| ShareIndex.StaysExactIff | source/beshare/ShareNetClient.cpp:492-577 | Exact counts stay exact if and only if the event does not enter a node that is tracked already |
| ShareIndex.TrackedMeansConnected | source/beshare/ShareNetClient.cpp:503 | The test for a connection when a node is removed never fails for a tracked node |
| ShareIndex.CountsAreExactIff | source/beshare/ShareNetClient.cpp:492-577 | After every run the counts are exact if and only if no event since the last clear entered a node that was tracked already; they are never too low |
| ShareIndex.TrackedIff | source/beshare/ShareNetClient.cpp:492-577 | After every run a node is tracked under a name if and only if some event entered it so from a directory watched then, and none has removed, cleared or re-entered it since |
| ShareIndex.WatchedIff | source/beshare/ShareNetClient.cpp:890-935 | A directory is watched after an event if and only if the event adds it, in a connection or below a watched one, or it was watched and is neither removed nor cleared; a connection lasts until the next attempt or disconnection |
| ShareIndex.SendsIff | source/beshare/ShareNetClient.cpp:501-523 | A removal message goes out with its 51st key or when no batch is going on, and not earlier |
| ShareIndex.StepBatches | source/beshare/ShareNetClient.cpp:501-523 | Each event keeps the removal keys in order, flushed exactly once, 1 to 51 to a message, none pending outside a batch |
| ShareIndex.RunBatches | source/beshare/ShareNetClient.cpp:1018-1028 | So does every run of well-nested batches |
| ShareIndex.RemovedBatchReports | source/beshare/ShareNetClient.cpp:989-1016 | A batch over any list of nodes reports the name of each tracked one exactly once and leaves nothing pending |
| ShareIndex.ShareNetClient.RefFilename | source/beshare/ShareNetClient.cpp:1423-1430 | A name is counted once more |
| ShareIndex.ShareNetClient.UnrefFilename | source/beshare/ShareNetClient.cpp:1432-1438 | A name is counted once less, and leaves the index at zero |
| ShareIndex.ShareNetClient.NodeCreated | source/beshare/ShareNetClient.cpp:551-570 | A file in a watched directory enters both tables |
| ShareIndex.ShareNetClient.NodeRemoved | source/beshare/ShareNetClient.cpp:501-523 | A file leaves the node table, is counted once less and is reported to the server |
| ShareIndex.ShareNetClient.NodeRemoveBatch | source/beshare/ShareNetClient.cpp:1018-1028 | Beginning and ending a batch |
| ShareIndex.ShareNetClient.UnwatchAllDirs | source/beshare/ShareNetClient.cpp:152-162 | Both tables and the watched directories are emptied |
| ShareIndex.ShareNetClient.DisconnectFromServer | source/beshare/ShareNetClient.cpp:119-149 | The connection goes together with everything watched and tracked |
| ShareIndex.ShareNetClient.ConnectToServer | source/beshare/ShareNetClient.cpp:96-116 | A new connection, made or not, starts from empty tables |
| ShareIndex.ShareNetClient.RemoveNodes | source/beshare/ShareNetClient.cpp:1006-1013 | The removal loops refine the batch |

## Left out

- Byte order: the input block is modelled as bytes decoded low-order byte first; `byteSwap`, which is a no-op on little-endian hosts, is not modelled.
- The shifts of the MD5 counter words and the checksum are written as arithmetic: a left shift is a multiplication, and joining disjoint bits is an addition.
- The layout of the 28-byte digest attribute, which is modelled as a record; a failing attribute read or write is a cache without an entry.
- What the file system answers is an argument or nondeterministic: any short read, failing read, open or seek, the shutdown flag at any point. Modes, attributes, icons, subdirectories and links are not modelled.
- GenerateNewFilename: any free name, the wanted one while it is free.
- Session.StepsOnlyAppend: a file that cannot be opened for reading and writing counts as absent, as it does for GenerateNewFilename; where such a file can still be opened for writing alone the code overwrites it from its start, which is not modelled.
- TransferSession.DownloadSession.OpenDownload: likewise.
- The loops of MD5SendLooper and MD5ReceiveLooper over many files are modelled one file at a time.
- Messages with missing fields, out-of-memory branches, upload file lists and ban times.
- Bandwidth policies, transfer statistics, the notification that a transfer is queued, and all drawing, which the modelled methods also trigger.
- TransferSession.UploadSession.NextFile: a file that cannot be opened leaves the session waiting for its next notification, as in the code; what wakes it up is not modelled.
- TransferList.ShareFileTransfer.DoUpload: how much a start sends and whether it fails is given per start; Dequeue.UploadRunIsAStart ties that to the upload session. Connecting is not modelled.
- Per-user limits over whole runs: a session identified later can exceed them, so the claims are per pass. Starts forced by the user bypass the limits.
- Resort: the comparison cookie; the sort is a stable sort by key.
- Paging.Inv: the byte total is an unbounded integer. Changing the page size while results are shown is not modelled.
- Columns, MIME information and the sort order of the displayed list.
- MessageEquality.EqualIff: nested messages are structures, so a field that fails to unflatten is not modelled.
- NameCompletion: case folding and blanks are those of ASCII; the search for the word to complete is not modelled.
- ShareIndex: keys are file names; removing a watched directory and the batch for its entries are separate events; the path prefix and the escaping of patterns are not modelled, nor are paths of watched directories, allocation failures and the overflow of a count.
- SendQueue: the network thread is a list of what it was given; threads and sockets are not modelled.
- The chat commands, the settings, the log files, the bot and the string tables.
