# A verified model of the los-cara storage engine

los-cara is a single-binary S3-compatible object server that keeps everything in plain files. This
project models the parts of it that are hard to get right, in Dafny, and proves what they are for:

- **The object install protocol** (`Install`, `InstallSafety`, `InstallSteps`, `InstallInvariant`,
  `InstallRuns`, `InstallRequests`, `InstallProgress`, `Storage`). put, copy, multipart completion, delete
  and read are requests with program counters over a shared disk; a step is one file system call of one
  request, an arrival, a cancellation, a crash of the process, or the removal of staging files. The
  invariant is proved for every reachable state, under every interleaving. From it follow refinement of an
  atomic map from objects to versions, the outcome of every request in terms of what it asked for, what a
  read without a lock returns, what garbage collection may remove, and that every lock is given back.
  `Storage` writes the engine's methods out as the calls they make, with arbitrary steps of other requests
  at every wait. What the environment decides is a parameter (`Env`): whether the lock comes, which calls fail, and
  whether a directory can be listed to its end; so the contracts say exactly when an operation succeeds.
- **Paginated listing** (`Listing`). `list_objects` as the loop it is, proved against a declarative
  listing; the resume rule; runs of a client over a bucket that changes between pages.
- **The `aws-chunked` decoder** (`ChunkDecoder`, `ChunkStreams`). The state machine as a function and as a
  class; split independence, accounting for every byte, the round trip with the encoder.
- **Multipart uploads** (`Multipart`), **byte ranges** (`Ranges`) and **canonical queries and paths**
  (`Canonical`, with well-formed UTF-8 in `Utf8`).
- `ByteStrings`, `Sorting`, `Objects` and `Bodies` hold what these share.

Strings are their UTF-8 bytes. MD5, SHA-256 and HMAC are arbitrary functions, passed as parameters, so
that the results hold for any of them.

## Assumptions

- A file system call is atomic, and what a completed call did survives a crash of the process. This is
  process crash, not power loss: `write_json_atomic` does not sync.
- The unlink of an existing file succeeds; a hard link or a complete copy has the source's bytes; the probe
  for an existing `meta.json` sees it.
- A request can be cancelled between two calls, not inside one.
- Housekeeping that takes the staging file of a running put makes the rename fail; in `Storage` it is one of the ways
  in which that call can fail. A lock comes because its holder ends or is dropped.
- Sharding by SHA-256 gives every object of a bucket a directory of its own; drawn UUIDs are fresh.
- Bucket names are valid ones. Only `create_bucket` checks them (src/storage.rs:198-201); elsewhere a bucket name
  is a percent-decoded path segment, so `/.%2Fb/k` addresses the directory of bucket `b` under the lock name of a
  bucket `./b`, and two such requests can work in one directory at the same time.
- `usize` and `u64` are 64 bits wide.

## Where code and comments differ

The model follows the code.

- The comment on `push` says that all calls after a signature failure report an error. Only a malformed
  payload has that effect. After a wrong signature a push succeeds if the failed chunk was the final one, or
  if the bytes at hand are fewer than the last part of that chunk; otherwise they are taken for the chunk
  once more (`PushAfterMismatchIff`, with the stream of `MismatchThenSuccess` as an instance). The request
  body wrapper stops at the first error, and the other results about the decoder are stated up to there.
- A chunk header line that is empty or not UTF-8 is not malformed: it counts as a line still to be completed, and
  the decoder then waits for ever without an error (`StalledForEver`). One line end too many behind a chunk is
  enough (`SurplusLineEnd`).
- The comment on `aws_uri_encode` says that `/` is preserved unless the flag is set. It is always encoded
  (`SlashFlagIsIdle`).
- The comment in the V1 listing handler says that `NextMarker` is given only with a delimiter. It is given
  with every truncated page that shows anything, and `NextToken` is the choice of both handlers.
- `start-after` and `marker` in S3 ask for all keys behind them. Here one group may be left out: where the start
  position itself ends with the delimiter and rolls up to the same common prefix as a key behind it, that
  key is neither listed nor rolled up (`StartRule`; with delimiter `/`, `start-after=a/b/` drops `a/c`, as
  `StartInsideGroup` shows). Tokens never do this (`ResumeRule`).
- A range with a number of 2^64 or more is ignored where that number has to be read, although section 14.1.2 of RFC
  9110 sets no bound: `bytes=0-18446744073709551616` asks for a whole object and is ignored
  (`VerdictAllowedIff`, `BigNumbersAreIgnored`). Numbers may have a plus sign, which the RFC's grammar has not:
  `bytes=+0-+4` is answered with five bytes (`ValidIsWritten`, `PlusSignsPass`).
- A start behind the end is rejected before the rest of the header is looked at: `bytes=20-x`, which is no range, is
  answered with 416 for an object of 10 bytes (`InvalidIff`, `OtherHeaders`).
- A reversed range (`bytes=10-3`) is an invalid range, which section 14.2 of RFC 9110 lets a server ignore
  or reject. The server does both: it ignores one that starts inside the object and rejects one that starts
  behind it (`VerdictAllowedIff`).
- A completion request that lists no parts is accepted (`EmptyListAccepted`).
- With `max_keys` 0 a non-empty listing is truncated and has no token (`TokenUnlessEmpty`), so a run cannot go
  on from it; the results about runs are for page sizes of 1 and more.

## Model

| member | source | states |
|---|---|---|
| InstallRuns.Safety | src/storage.rs:285-550 | in every state that any interleaving of puts, copies, completions, deletes, reads, failures, cancellations and crashes can reach, the whole invariant holds: disk, lock table and every program counter agree |
| InstallRuns.MetadataNamesItsData | src/storage.rs:15-18 | a present `meta.json` names a data file that exists in its own directory, whose length is the recorded size, and whose ETag is the MD5 of its bytes or of the MD5s of some split of them with `-N` |
| InstallInvariant.DoOk | src/storage.rs:103-109 | every single act of anyone keeps the invariant |
| InstallInvariant.CrashOk | src/storage.rs:304-371 | a crash at any moment leaves a disk from which everything can go on |
| InstallInvariant.LockDiscipline | src/storage.rs:188-194 | only holders of an object's lock change the disk, and nobody comes to hold a lock that is taken |
| InstallSafety.Undisturbed | src/storage.rs:188-194 | what a request relies on survives every step of the others, because they work in other directories, on fresh names and on their own unfinished files |
| Objects.LockNameInjective | src/storage.rs:188-194 | bucket, NUL and key name the lock of one object only |
| InstallRuns.StepRefines | src/storage.rs:345-371 | a step leaves the visible objects unchanged or is exactly one atomic put or delete, at the rename or the unlink of `meta.json` |
| InstallRuns.RunRefines | src/storage.rs:15-18 | the files always show the result of the atomic puts and deletes so far, and nothing else |
| InstallRuns.RunMade | src/storage.rs:285-550 | the puts and deletes that took effect for a request are exactly those its program counter tells: at most one |
| InstallRequests.RunTells | src/storage.rs:285-550 | in every reachable state every program counter agrees with the story of its request: the object, range, source, attributes or parts it arrived with, the body it was sent, the version it read, and whether its delete found the object |
| InstallRequests.PutOutcome | src/storage.rs:283-377 | a put, at whatever point it stands, ended, failed or was interrupted, took effect not at all, or once, at the object it arrived for, with exactly the bytes it was sent, their MD5, and the attributes it arrived with; once if it ended well |
| InstallRequests.JoinOutcome | src/storage.rs:814-872 | a completion, at whatever point it stands or was interrupted, took effect not at all, or once, at its object, with its parts one behind the other and the multipart ETag; once if it ended well |
| InstallRequests.InstallOutcome | src/storage.rs:356-371 | every install that ended well took effect once and stored what it was asked to store |
| InstallRequests.FailureOutcome | src/storage.rs:365-368 | a request that returned an error changed nothing a client can see |
| InstallRequests.LostOutcome | src/storage.rs:283-284 | old or new: a request cancelled, or caught by a crash, changed nothing a client can see, or did in one step all that it arrived for: a put stored the bytes it had been sent, a completion its parts, a copy the version its source held at the metadata read, and a delete removed its object |
| InstallRequests.ReadReturnsOneVersion | src/storage.rs:412-440 | a read that succeeds returns exactly the slice it was asked for, of the one version that the object it was asked for held at its metadata read, whatever happens before its open and while it streams |
| InstallRequests.OpenFailsOnlyIfReplaced | src/storage.rs:419-427 | a read cannot find its data file gone unless its version is no longer the current one |
| InstallRequests.CopyInstallsOneVersion | src/storage.rs:467-550 | a copy, at whatever point it stands or was interrupted, installed nothing, or, at the destination it was given, the version that the source it was given held at its metadata read; without REPLACE with the same ETag and attributes, with REPLACE with the given attributes and the MD5 of the bytes as ETag |
| InstallRequests.DeleteOutcome | src/storage.rs:444-463 | a delete, at whatever point it stands or was interrupted, changed nothing, or removed its object in one step after it had found it there; if it ended well, it removed the object if and only if it was there when it looked |
| InstallProgress.SweepLeavesOneFile | src/storage.rs:369-388 | when an install has swept its directory, one data file is left there, the one its metadata names, however many crashed installs came before |
| InstallProgress.SweepIsSafe | src/storage.rs:379-388 | garbage collection never removes a file that any metadata names or that an install in flight, on any object, still needs |
| InstallProgress.LockIsGivenBack | src/storage.rs:188-194 | every lock that is taken has an unfinished holder at work on just that object, and the holder's own calls, none of which needs another lock or gives up, lead to a state where the lock is free; it fails only where the file it needs next is gone |
| InstallProgress.HolderAdvances | src/storage.rs:304-388 | at every point of an operation under its lock there is a call that takes it closer to its end, unless its staging file or the file it copies is gone |
| InstallProgress.LockTableByName | src/storage.rs:188-194 | the server's table, keyed by bucket, NUL and key, behaves as the model's, keyed by objects |
| Storage.Storage.PutObject | src/storage.rs:285-377 | with any interleaving of other requests, a put succeeds if and only if the key has 1 to 1024 bytes, the body is intact and has at most 5 GiB, the lock comes, and no call fails; success means one event, the whole body with its MD5, and one data file left in the directory if it can be listed; failure means no event |
| Storage.Storage.ReceiveBody | src/storage.rs:312-334 | the receiving loop has the whole intact body in the staging file, or the body is broken or too long or a write failed, and the file is gone |
| Storage.Storage.InstallMeta | src/storage.rs:365-371 | the metadata swap succeeds if and only if neither of its calls fails, and then ends in a finished install with one data file left if the directory can be listed; a failure leaves no data file of the install |
| Storage.Storage.GcObjectDir | src/storage.rs:379-388 | the best-effort sweep ends in a finished install, and is complete if and only if the listing gets to the end of the directory; then one data file is left there, the one the metadata names |
| Storage.Storage.DeleteObject | src/storage.rs:444-463 | a delete looks if and only if its lock comes; it removes the object in one event if and only if the object is there when it looks; and if it could read the metadata, the data file that the metadata it unlinked named is gone when it returns |
| Storage.Storage.CopyObject | src/storage.rs:467-550 | success means one event, at the destination, of the version that the given source held when its metadata was read; failure means no event, and has a cause: the lock did not come, a call failed, or the source was missing or was replaced in between |
| Storage.Storage.HashData | src/storage.rs:508-526 | the ETag computed block by block under REPLACE is the MD5 of exactly the source version's bytes, and only a failing call prevents it |
| Storage.Storage.GetObjectRange | src/storage.rs:412-440 | a read that succeeds returns the slice of the version that the given object held at the metadata read; one that fails had a failing call, or the object was missing or was replaced between the metadata read and the open |
| Storage.Storage.InstallParts | src/storage.rs:814-872 | the install of a completed upload succeeds if and only if the lock comes and no call fails; it is one event, the concatenation of the parts with the multipart ETag, or none |
| Storage.StagingFileMoves | src/storage.rs:345-354 | the rename takes the staging file away and puts that very file in place |
| Storage.MetaFileMoves | src/storage.rs:103-109 | the rename takes the temporary metadata file away and makes it `meta.json` |
| Storage.OthersSpareStaging | src/storage.rs:915-931 | no other request takes a staging file away, only housekeeping does |
| Storage.CrashKeepsFiles | src/storage.rs:915-931 | a crash ends every request and frees every lock and changes no file; housekeeping removes one staging file and nothing else |
| Listing.AllObjects | src/storage.rs:555-575 | the metadata found on disk, each key once, in ascending key order |
| Listing.ListObjects | src/storage.rs:580-650 | the loop returns exactly the first `max_keys` items after the start position; and said of the page alone: objects of the bucket and common prefixes of some, each list strictly ascending, nothing that is not shown, everything shown unless it lies behind all that is on the page, at most `max_keys` together and exactly so many when truncated, `truncated` if and only if more remain, and the last position on the page as the one token |
| Listing.ItemsAreListing | src/storage.rs:596-641 | these items are what a listing is: all shown objects or their common prefixes, no others, strictly ascending |
| Listing.PageShowsItems | src/storage.rs:630-649 | the page holds exactly the objects and the common prefixes among the items shown, each once, in ascending order |
| Listing.ListingUnique | src/storage.rs:596-641 | there is only one such listing |
| Listing.RollupOfExtension | src/storage.rs:604-619 | every key that starts with a common prefix rolls up to it, for delimiters of any length, self-overlapping ones included |
| Listing.ItemMonotone | src/storage.rs:604-619 | roll-up keeps the order of keys and only merges neighbours |
| Listing.ResumeRule | src/storage.rs:600-619 | for any token of an earlier page, the tests on the start position drop exactly the keys whose item is not after the token |
| Listing.StartRule | src/storage.rs:600-619 | for any start position at all, the tests show exactly the keys behind it that are not of the group it belongs to if it ends with the delimiter |
| Listing.StartInsideGroup | src/s3.rs:1009-1016 | a start position, as a client may send it, and a key behind it that is neither shown nor rolled up |
| Listing.TokenOfPage | src/s3.rs:1049-1056 | the token that the handlers choose from a truncated page is the position of the last item shown |
| Listing.TokenUnlessEmpty | src/storage.rs:624-649 | a truncated page has a token if and only if the page size is at least 1, and with page size 0 it shows nothing |
| Listing.RunAscending | src/s3.rs:1005-1056 | over a whole run, however the bucket changes between pages and whatever the page sizes, the items are strictly ascending, so none appears twice |
| Listing.RunSound | src/storage.rs:580-650 | every item of a run stands for an object that was there at one of its pages |
| Listing.RunCovers | src/s3.rs:1112-1117 | on a finished run every key that was there at every page, and lies behind the start position of the client (and outside the group that a start position ending with a delimiter belongs to), is covered by exactly one item, itself or its common prefix |
| Listing.RestAfterPage | src/storage.rs:600-619 | on an unchanged bucket the listing from the token is the rest of the listing |
| Listing.RunOfFixedBucket | src/storage.rs:580-650 | on an unchanged bucket the pages of a finished run, of any sizes, add up to the one-shot listing |
| Listing.RunLength | src/storage.rs:624-627 | with a fixed page size the run is finished if and only if it has had `Pages` pages |
| Listing.PagesIsCeiling | src/storage.rs:624-627 | that number is the number of items divided by the page size, rounded up, and 1 for none |
| ChunkDecoder.SplitIndependence | src/auth.rs:577-637 | for any two ways of cutting a stream, up to the first error: same bytes out, same verdict, same finished flag, same signature state, and the same position if the stream goes on |
| ChunkDecoder.Absorb | src/auth.rs:577-637 | draining two pieces one after the other is draining them at once |
| ChunkDecoder.TurnProgress | src/auth.rs:582-636 | every turn of the loop takes bytes off the buffer, so `push` returns |
| ChunkDecoder.ParseHeaderStable | src/auth.rs:507-525 | once a line end is there, bytes behind it do not change how a header is parsed |
| ChunkDecoder.HeaderWithExtensions | src/auth.rs:507-525 | in a header line with any fields, the first is the size, malformed if it is no number, and the first that begins with `chunk-signature=` holds the signature |
| ChunkDecoder.HeaderWithoutSignature | src/auth.rs:519-524 | a header line without such a field has the empty signature |
| ChunkDecoder.NeedMoreIff | src/auth.rs:508-513 | a header is awaited if and only if there is no line end, or the first line is empty or not UTF-8 |
| ChunkDecoder.PushRests | src/auth.rs:577-637 | a push without an error has read all it can: it waits for a header line, for data or for a line end |
| ChunkDecoder.MalformedIsFinal | src/auth.rs:575-577 | after a malformed payload every later push reports it again and delivers nothing |
| ChunkDecoder.StalledForEver | src/auth.rs:508-513 | a decoder whose first buffered header line is empty or not UTF-8 takes whatever is pushed, in any pieces, without an error, without output and without finishing |
| ChunkDecoder.SurplusLineEnd | src/auth.rs:511-513 | one line end too many where a header should begin leads there, whatever follows |
| ChunkDecoder.MismatchIsNotFinal | src/auth.rs:575-577 | what every later push does after a signature failure: it succeeds and delivers nothing after the final chunk; otherwise its bytes are taken for the failed chunk again, and it fails, having delivered them, when they complete it and do not verify |
| ChunkDecoder.PushAfterMismatchIff | src/auth.rs:575-577 | unless what it completes verifies, a push after a signature failure succeeds if and only if the chunk was the final one or the bytes at hand do not complete it |
| ChunkStreams.MismatchThenSuccess | src/auth.rs:575-577 | a concrete stream with a wrong signature, which is reported once, and an empty push behind it that succeeds |
| ChunkStreams.Soundness | src/auth.rs:581-652 | without an error: the output is the data of chunks of the declared sizes whose signatures chain from the seed, then the part of a chunk not yet verified; every byte is in a header, a trailer, the output or the buffer until the stream ends; a stream that ended had a verified final chunk |
| ChunkStreams.SoundnessAtError | src/auth.rs:581-652 | at the first error of a stream: the output is the data of chunks whose signatures chain from the seed, and then, only if a signature is wrong, the whole data of the one chunk it does not fit; malformed input lies right behind the verified chunks |
| ChunkStreams.ParsePrintedHeader | src/auth.rs:507-525 | parsing inverts printing of a chunk header, whatever follows |
| ChunkStreams.RoundTrip | src/auth.rs:823-844 | decoding the encoder's output in any pieces, whatever the non-empty chunks contain, gives exactly the chunks and ends finished |
| ChunkStreams.StreamDecoder.Push | src/auth.rs:577-637 | the method does to its fields and its output what the decoder function says |
| ChunkStreams.StreamDecoder.VerifyChunk | src/auth.rs:639-653 | a chunk is accepted if and only if its lower-cased signature is the MAC over its predecessor and data, and only then becomes the predecessor |
| ChunkDecoder.StringToSignLines | src/auth.rs:640-645 | the lines of the string to sign are the algorithm, the date, the scope, the predecessor, the hash of nothing and the hash of the chunk's data |
| ChunkDecoder.VerifiesIff | src/auth.rs:646-649 | a signature is accepted if and only if it is the MAC of that string in hexadecimal digits, of either case |
| ChunkDecoder.SignatureInjective | src/auth.rs:639-646 | for hashes without collisions two signatures agree if and only if predecessor and data do |
| ChunkDecoder.OneChunkFits | src/auth.rs:639-653 | for hashes without collisions one signature is accepted for one predecessor and one chunk only |
| ChunkStreams.ChainDetermines | src/auth.rs:639-653 | for hashes without collisions the last signature of a chain fixes the data and the signature of every chunk before it |
| ChunkStreams.FinalSignatureFixesPayload | src/auth.rs:581-653 | for hashes without collisions two streams that end well with the same seed, final signature and number of chunks have delivered the same payload |
| ByteStrings.ParseHexNumber | src/auth.rs:515-518 | parsing a printed hexadecimal size gives it back |
| ByteStrings.ParseHexIs | src/auth.rs:515-518 | a size is read from hexadecimal digits of either case, with or without a plus sign, below 2^64, and from nothing else |
| ByteStrings.LeIff | src/storage.rs:573 | strings are ordered by the first byte that differs, and a string comes after its prefixes |
| ByteStrings.HexAlphabet | src/auth.rs:646 | the digits that are printed and read |
| ByteStrings.HexSpells | src/auth.rs:646 | a byte is printed with its high half first |
| ByteStrings.DigitsUnique | src/storage.rs:849 | numbers are printed without leading zeros, which makes the printed form unique |
| Objects.EtagSpells | src/storage.rs:842-849 | a plain ETag is the MD5 of the bytes in hexadecimal and has no dash; a multipart ETag is the MD5 over the digests of the parts, a dash and their number |
| Objects.SliceIs | src/storage.rs:428-439 | the bytes from the start on, at most as many as asked for, and no more than there are |
| Bodies.BodyAppend | src/storage.rs:312-334 | the bytes of a body are those of its pieces, one behind the other |
| Multipart.Receive | src/storage.rs:719-741 | the receiving loop returns the whole body, intact and at most 5 GiB, or the error of the first piece that breaks it |
| Multipart.InOrder | src/storage.rs:787-799 | sort, neighbour test and comparison accept exactly the strictly ascending lists, and then the sorted list is the given one |
| Multipart.Engine.CreateMultipart | src/storage.rs:658-685 | a new upload with an empty manifest and no staged part, in an existing bucket only |
| Multipart.Engine.UploadPart | src/storage.rs:703-758 | success exactly for a known upload, an intact body of at most 5 GiB and file calls that work: the part and its manifest entry, MD5 and length, are written or replaced together; every error leaves the manifest alone, and the staged part too unless it comes behind the part's rename; all manifests then stay truthful if and only if this one had the very same entry |
| Multipart.TornUploadIff | src/storage.rs:749-757 | when the part is renamed into its place and the manifest is then not written, the manifest stays truthful if and only if it had the very same entry |
| Multipart.LostEntryIff | src/storage.rs:749-757 | when two uploads both read the manifest before either wrote it, one entry is lost; the manifest stays truthful if and only if it had that entry from before or, for one part number, if the file renamed last has the entry written last |
| Multipart.Engine.CompleteMultipart | src/storage.rs:779-873 | accepts exactly the strictly ascending lists of known, matching parts of sufficient size, unless a file call of the assembly fails or a part file is gone; stores the part files as found, whatever other requests did to them since the manifest was read, under the manifest's sizes and digests; with the files as they were that is their concatenation in order with its true length and multipart ETag; it ends the upload; an error says which check failed and changes neither uploads nor objects |
| Multipart.AcceptsIff | src/storage.rs:787-812 | accepted if and only if the numbers ascend strictly, every part is known under the ETag listed for it, and all but the last have at least 5 MiB |
| Multipart.RejectionIs | src/storage.rs:787-812 | a rejected list gets the error of its first fault: numbers out of order, then an unknown or changed part, then a part that is too small |
| Multipart.StalePartsIff | src/storage.rs:784-863 | when parts are uploaded again between the read of the manifest and the assembly, size and ETag of what is stored are true of the parts found if and only if their total length is the noted one and the MD5 over their digests is |
| Multipart.Engine.AbortMultipart | src/storage.rs:875-881 | the upload and its parts are gone; an unknown upload is an error |
| Multipart.FallbackNotTaken | src/storage.rs:842-848 | recorded ETags always decode to the digests of the staged parts, so the zero digest is never used |
| Multipart.SumNeverWraps | src/storage.rs:851-854 | under the 4 MiB limit of the request body the 64-bit sum of part sizes cannot wrap |
| Multipart.AssembledMeetsGoal | src/storage.rs:814-863 | what validation accepts is the version that the install protocol publishes for it |
| Multipart.EmptyListAccepted | src/storage.rs:787-849 | an empty list is accepted and makes an empty object with an ETag that ends in `-0` |
| Ranges.RangeDenotation | src/s3.rs:868-911 | a range written by the RFC's grammar, its numbers of any size, is answered by exactly the positions it denotes, at least one and all inside the object; it is invalid only if it denotes none; it is ignored if and only if it is reversed and starts inside, or a number that has to be read does not fit 64 bits |
| Ranges.ValidIsWritten | src/s3.rs:868-911 | a header that is answered with a range is, up to plus signs before its numbers, a range by the RFC's grammar, and the one answered; it is itself one if and only if it has no plus sign |
| Ranges.VerdictAllowedIff | src/s3.rs:868-911 | for a range written by the RFC's grammar the verdict is one that sections 14.1 and 14.2 of RFC 9110 give a server that honours ranges if and only if the range is reversed or no number that has to be read exceeds 64 bits; a reversed range is ignored if and only if it starts inside the object or its start is too big, and rejected otherwise |
| Ranges.BigNumbersAreIgnored | src/s3.rs:882-907 | three ranges with the number 2^64, two of them satisfiable, that are ignored |
| Ranges.PlusSignsPass | src/s3.rs:892-907 | `bytes=+0-+4` is no range by the RFC's grammar and is answered with the first five bytes |
| Ranges.ReversedRangeBothWays | src/s3.rs:896-909 | one header that is rejected for an object of 10 bytes and ignored for one of 20 |
| Ranges.InvalidIff | src/s3.rs:868-896 | of all headers exactly these are rejected: one pair of fields around the first dash, no comma, and a suffix of no bytes, a suffix of an empty object, or a start behind the end; every other header that is not answered is ignored |
| Ranges.PlusSignsDropOut | src/s3.rs:882-907 | plus signs in front of the numbers make no difference |
| Ranges.OtherHeaders | src/s3.rs:868-896 | `bytes=20-x` is no range by the RFC's grammar and is rejected for 10 bytes; another unit and a list of two ranges are ignored |
| Ranges.ResponseIs | src/s3.rs:746-793 | without a Range header, and with one that is ignored, the answer is 200 with the whole object; with one that is rejected it is 416; with one that is answered it is 206 with that range |
| Ranges.HeadersAgree | src/s3.rs:746-792 | on an unchanged object the body has the length of Content-Length and the bytes of Content-Range |
| Ranges.BlocksAreTheObject | src/storage.rs:428-439 | for every block size, the answers to successive block requests of a client with 64-bit numbers add up to the object |
| Canonical.ParseQuery | src/s3.rs:218-233 | the loop returns the decoded pairs of the query's non-empty fields |
| Canonical.QueryAppend | src/s3.rs:218-233 | what stands between ampersands is parsed piece by piece, in order |
| Canonical.QueryOfField | src/s3.rs:224-230 | a field is cut at its first `=`; without one it is a name with an empty value; what does not decode to text stays as it is |
| Canonical.ParseCanonicalQuery | src/auth.rs:158-169 | parsing a canonical query gives the query back in the order of its encoded pairs, empty names and values included |
| Canonical.CanonicalQueryIff | src/auth.rs:158-169 | two queries have the same canonical form if and only if they are equal as multisets |
| Canonical.CanonicalQueryFields | src/auth.rs:158-169 | between its ampersands the canonical query holds each pair once, encoded as `name=value`, in ascending order; it is empty for no pairs |
| Canonical.EncodedLeIff | src/auth.rs:163 | the order is by encoded name and then by encoded value |
| Canonical.DecodeEncode | src/auth.rs:136-155 | percent decoding inverts percent encoding |
| Canonical.UnreservedIff | src/auth.rs:135-139 | the characters that stay are those of section 2.3 of RFC 3986 |
| Canonical.EncodeByteIs | src/auth.rs:135-140 | any other byte becomes `%` and two upper-case digits |
| Canonical.DecodeEscape | src/auth.rs:150-155 | `%` and two digits of either case are read as a byte |
| Canonical.DecodeStray | src/auth.rs:150-155 | any other `%` stays |
| Canonical.PercentDecodeIff | src/auth.rs:150-155 | decoding succeeds if and only if the decoded bytes are UTF-8 |
| Canonical.SlashFlagIsIdle | src/auth.rs:134-148 | the slash flag of `aws_uri_encode` makes no difference: no encoding holds a slash |
| Canonical.CanonicalUriIdempotent | src/auth.rs:173-180 | `canonical_uri` is idempotent |
| Canonical.CanonicalUriKeepsSlashes | src/auth.rs:173-180 | the number of segments and which are empty do not change, encoded slashes and undecodable segments included |
| Canonical.CanonicalUriDecodes | src/s3.rs:362-370 | the canonical path always decodes, and to the same segments as the path if and only if the path decodes |
| Canonical.CanonicalUriEncodes | src/auth.rs:173-180 | every segment of the canonical path is the encoding of what the segment stood for, or of its text if it could not be decoded |
| Canonical.PathAppend | src/s3.rs:362-370 | a path is decoded segment by segment, and one that is no text spoils it |
| Canonical.PathOfSegment | src/s3.rs:362-370 | empty segments are dropped, others decoded or refused |
| Utf8.SplitUtf8 | src/auth.rs:173-180 | text splits into text at an ASCII separator |
| Utf8.IsUtf8Iff | src/auth.rs:510 | what passes for text is exactly the encodings, by section 3 of RFC 3629, of sequences of Unicode scalar values |

## Left out

- HTTP routing, CORS, TLS, the command line, logging, dates, XML: library glue. Completion requests arrive as the parsed part list.
- Buckets in the install protocol: creation, the existence probes in front of each operation, and `delete_bucket`, which is an unlocked check-then-remove.
- Creation of object directories, and metadata without a data file name, which no operation writes.
- `last_modified` and `initiated`: clock readings that nothing modelled depends on.
- The directory listing of garbage collection is one step; a listing that breaks off is modelled at every later point.
- A listing sees each object's metadata at its own moment; a page is modelled over what it read, so "there at every page" means read there.
- Reads never failing: a reader's version can be collected between its metadata read and its open, and it then returns an error.
- The GET handler reads the metadata twice; agreement of headers and body is stated for an object that does not change.
- The PUT handler deletes a key whose digest check fails after the install (src/s3.rs:681-683); only the storage-level put is atomic.
- InstallRequests.JoinOutcome: the parts of a completion are values fixed when it arrives, because the interleaved protocol has no staged parts; `StalePartsIff` says what a part uploaded again before the assembly does to it.
- Storage.Storage.InstallParts: likewise takes the parts as values, which `Multipart.Engine.CompleteMultipart` reads from the staged files as found.
- Multipart.Engine.UploadPart: does not cover an upload that is aborted between the rename of a part and the write of its manifest entry; two uploads interleaved there are the subject of `LostEntryIff`.
- Range headers in other forms of the RFC's list grammar, with the unit not in lower case, several or empty elements, or white space: all are ignored, which section 14.2 permits.
- The end of a stream before its final chunk: the body wrapper does not reject it.
- Percent decoding is modelled as the library documents it, a `%` without two digits behind it is kept.
- Lower-casing of signatures is for ASCII letters; no other letter has a lower case made of hexadecimal digits.
- Signature verification of whole requests, the credential store, conditional requests, bucket name rules: branches that reading settles.
- A request that never gets a lock is modelled as one dropped while waiting; fairness of locks is not modelled.
