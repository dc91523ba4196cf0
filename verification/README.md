# SatoshiSend: a verified model

SatoshiSend hosts client-side encrypted files against Lightning payments. This project models its three parts
with the most state and arithmetic and proves properties of them in Dafny. `dafny verify dfyconfig.toml` checks it all.

**A. The encrypted container** (`web/js/crypto`). A file is a self-delimiting header followed by separately sealed
chunks. `Encrypt` writes it, `Decrypt` reads it from memory, and `Stream` reads it by HTTP Range requests (section
14 of RFC 9110) over a rope of fetched buffers. Both decryptors are imperative and proved against one
specification, `Container.Decrypted` and `Container.Streamed`. The cipher is a pair of functions under stated laws
(`Aead`): opening undoes sealing, a ciphertext is 16 bytes longer than its plaintext (sections 7.1 and 7.2 of NIST
SP 800-38D), and for authenticity only the entries of a log open. Instances show that the laws can be met. Names
are their UTF-8 bytes. `Wire` says the same byte by byte, without the layout's own functions: every header byte, every
sealed chunk, and exactly what a blob decrypts to.

**B. Uploads, invoices, payments and expiry** (`internal`, `cmd/server`). `Store`, `Files`, `Payments` and
`Limiter` hold the objects, with one method for each of the source's; `Server` wires them as the main program does.
`Machine` runs the same operations as a state machine: a step is one database statement, one storage call or one
critical section of a mutex, any number of upload handlers, the payment watcher and the cleanup loop interleave
at every step, any statement may fail, settled updates may repeat or come late, and the process may crash and start
again between any two steps. A run is any finite sequence of steps; a step that cannot be taken changes nothing.
`Server` proves that an operation nobody interrupts is its sequence of machine steps.

**C. Rate limiting** (`internal/api/middleware.go`). `Eviction` holds the objects, `Buckets` tells which requests pass
from the times of the earlier ones alone, and `EvictionLaws` shows when dropping idle buckets changes no decision.

Taken as atomic: each step named in `Machine.Step`, that is, each SQL statement, each storage call, the two map
updates of `handlePayment` and of `CreateInvoiceForFile` under their lock, and each limiter operation. The limiter
check when an upload starts and the tracking when it completes are separate (`Overshoot`), and so are listing
expired files and deleting each blob and row (`Hosting`).

The repository's README says that unpaid files are deleted after one hour; the code keeps them for 15 minutes
(`internal/files/service.go:16`), and the model follows the code.

Promises that do not hold as they stand. Each is given with its exact condition and with a run or an input on
which it fails:

- A payment does not always buy the hosting period. If a cleanup pass has already listed the expired, unpaid file,
  it may delete it after the payment was recorded (`Hosting.PaidIsHosted` is an equivalence,
  `Hosting.CleanupOvertakesPayment` the run). The period itself ends up to one second early, because the database
  rounds to whole seconds (`Hosting.PaidExpiryBounds`).
- A payment can be lost. Whatever statements fail, an invoice that was issued is forgotten, by maps, rows, watcher and
  handlers and with its file not marked for it, exactly if it had no row when a crash hit, or when its mark failed or
  found no file (`Losses.ForgottenIffLost`, for fresh hashes). Its row may never have been written
  (`Losses.UnwrittenRowLosesPayment` is such a run), and the settlement deletes it before it marks the file. If every
  statement on invoice rows succeeds, the condition is a crash between these two statements, or a mark that fails or
  finds no file (`Recovery.ForgottenIffCutOrUnmarked`; `Recovery.CrashLosesPayment` and
  `Recovery.FailedMarkLosesPayment` are the runs).
- A settlement reported twice is not always one settlement. Until the next restart it is, whatever fails
  (`Repeats.SettledOnce`). After a restart it takes effect again exactly if the row of its invoice was stored and
  never deleted (`Repeats.RestartRepeats`), and then the file expires later (`Repeats.DuplicateMovesExpiry`).
- Cleanup does not always remove the blob with the row: a file uploaded again between the two deletions leaves its
  blob behind, and nothing else does (`Hosting.RowGoesWithBlob`, `Hosting.PutBackLeavesBlob`).
- A paid file does not always leave the limiter. A payment leaves its file counted exactly if it was counted at
  another address than the reverse map gives, or is missing from that map (`LimiterLaws.PayLeavesIfElsewhere`). With
  fresh IDs and no restart, a file whose handler is done and whose payment the limiter was told of is counted at some
  state since then exactly if the limiter was told while the handler was still in progress, for a known address: the
  invoice is served before the file is tracked (`Lingering.SettledLingersIffToldEarly`; the run is
  `Lingering.EarlyPaymentLingers`). With an ID uploaded again from elsewhere it may stay counted at the first address
  (`Lingering.SecondAddressLingers`). An unpaid file is counted exactly if its invoice was created and the limiter was
  not told of a payment since its handler was done (`Agreement.LimiterAgreesWithStore`).
- The stricter rate limit for uploads holds for a POST to exactly `/api/upload`
  (`Eviction.RateLimiterMiddleware.Middleware` gives the limiter of every request). No route has that path
  (`internal/api/handler.go:52-59`), so whatever a route handles, such as `PUT /api/upload/{id}`, is held to the
  general limit.
- A file name that `encryptFile` accepts may be one that neither decryptor accepts, because one side counts UTF-16
  units and the other UTF-8 bytes (`Encrypt.RoundTrip`, `Encrypt.AcceptedNameThatDoesNotDecrypt`).

## Model

| member | source | states |
|---|---|---|
| Bytes.ConcatBuffers | web/js/crypto/utils.js:6-15 | the new array holds the given buffers one after the other, nothing else |
| Bytes.BigEndianRoundTrip | web/js/crypto/header.js:52-62 | reading back a big-endian field gives the number, for every number that fits the width |
| Bytes.FromBigEndianRoundTrip | web/js/crypto/header.js:84-97 | writing back a number read from a field gives the same bytes |
| Bytes.BigEndianWraps | web/js/crypto/header.js:53-58 | a number too wide for its field is stored modulo the field, as `DataView` setters do |
| ChunkIv.DerivedParts | web/js/crypto/utils.js:56-63 | a derived IV keeps the first 8 bytes of the base and has the index XORed into the last 4, modulo 2^32 |
| ChunkIv.XorBits | web/js/crypto/utils.js:61-61 | a bit of the combined word is set exactly if it is set in one of the two |
| ChunkIv.FirstChunkIv | web/js/crypto/utils.js:56-63 | chunk 0 has the base IV itself |
| ChunkIv.DeriveIsItsOwnInverse | web/js/crypto/utils.js:56-63 | deriving twice with one index gives the base IV back |
| ChunkIv.SameIvIffSameIndex | web/js/crypto/utils.js:56-63 | two indices give one IV exactly when they are equal modulo 2^32 |
| ChunkIv.DistinctInWord | web/js/crypto/encrypt.js:47-55 | IVs of chunks below 2^32 are pairwise distinct, as section 8 of NIST SP 800-38D needs |
| Header.ParseSerialized | web/js/crypto/header.js:49-106 | parsing a serialized header followed by any bytes gives its fields and consumes exactly its size |
| Header.HeaderRoundTrip | web/js/crypto/header.js:49-106 | the same as an equivalence: it holds exactly for names below 2^16 bytes |
| Header.SerializeParsed | web/js/crypto/header.js:78-106 | serializing a parsed complete header gives the consumed bytes back exactly when the stored size is a double |
| Header.FirstLostSize | web/js/crypto/header.js:97-97 | every size up to 2^53 survives `Number`, and 2^53 + 1 does not |
| Header.ToNumberRounds | web/js/crypto/header.js:97-97 | `Number` keeps a size exactly when it is representable, and is off by less than one spacing otherwise |
| Header.SpacingIs | web/js/crypto/header.js:97-97 | from 2^53 on, doubles are the power of two apart that leaves 53 significant bits |
| Header.NearestDouble | web/js/crypto/header.js:97-97 | the size read is a multiple of that spacing, none is nearer, and of two equally near ones it is the even one |
| Header.SelfDelimiting | web/js/crypto/header.js:49-106 | no serialized header is a proper prefix of another: equal streams have equal headers and equal rests |
| Wire.ParsedByByte | web/js/crypto/header.js:78-106 | the fields of a complete header by the weight of each byte, the first weighing most |
| Wire.SerializedByByte | web/js/crypto/header.js:49-71 | the numbers, name and IV a serialized header holds, byte by byte, and its length |
| Wire.HeaderNeeds | web/js/crypto/header.js:78-106 | how many bytes parsing needs, and a complete header |
| Aead.LawsAreConsistent | web/js/crypto/encrypt.js:65-69 | a cipher that meets the laws assumed of AES-GCM exists |
| Prefixes.OpenedIffEachChunk | web/js/crypto/decrypt.js:67-75 | the specification's body is what it should be: the concatenation of parts each of which is what its chunk opens to |
| Container.LayoutClosedForm | web/js/crypto/decrypt.js:43-55 | chunk i starts at header size + i * (chunkSize + 16) |
| Container.CountIsCeiling | web/js/crypto/header.js:114-116 | the chunk count is the least number of chunks that hold the file |
| Container.ChunkShape | web/js/crypto/decrypt.js:47-50 | every chunk but the last is full and the last is what remains, for every chunk the loop reaches |
| Container.Reading.ClampedIsShort | web/js/crypto/decrypt.js:53-93 | when slices are clamped to the blob, the final size check passes exactly when no slice was cut |
| Container.StreamingRefinesInMemory | web/js/crypto/stream-decrypt.js:129-211 | on every blob with a complete header the two decryptors agree; streaming accepts exactly the blobs decrypted in memory whose header is complete |
| Container.CutOffHeader | web/js/crypto/header.js:101-101 | a blob cut off within the IV is accepted in memory exactly when it declares size 0, and never by streaming |
| Wire.DecryptsExactly | web/js/crypto/decrypt.js:16-97 | a blob with a complete header decrypts to a name and a content exactly if the name is the declared one of at most 1024 bytes, the content has the declared size, and every chunk, found by the numbers in the header, opens under its own IV to its slice: chunk 0 with the header as additional data, the others with none |
| Decrypt.DecryptFile | web/js/crypto/decrypt.js:16-97 | terminates on every blob with the specified result; says exactly when a name is too long or a header cannot be read, and names the first chunk that fails, all before it having opened |
| Decrypt.DecryptBody | web/js/crypto/decrypt.js:40-93 | the chunk loop ends on every header, chunk size 0 and oversized declarations included, and computes the specified body |
| Stream.RangeReader.FetchRange | web/js/crypto/stream-decrypt.js:34-57 | a range is appended exactly when answered with 206 and the exact length, and then its body; else nothing changes and the error says which it was |
| Stream.RangeReader.EnsureBytes | web/js/crypto/stream-decrypt.js:60-72 | succeeds exactly when that many bytes are left to deliver, fetched ranges tile the source, the buffer bound holds |
| Stream.RangeReader.ConsumeBytes | web/js/crypto/stream-decrypt.js:75-100 | returns the next bytes of the source and advances by as many, padding with zeros only past the buffer |
| Stream.RangeReader.PeekBytes | web/js/crypto/stream-decrypt.js:103-127 | returns the same prefix of the rope and consumes nothing |
| Stream.ExactDelivers | web/js/crypto/stream-decrypt.js:60-67 | against a server that answers ranges exactly, the fetched windows are the blob from the window's start |
| Stream.StopsAtRefusal | web/js/crypto/stream-decrypt.js:40-53 | nothing from the first refused range on is delivered |
| Stream.DeliveredByByte | web/js/crypto/stream-decrypt.js:34-67 | every byte before it is the one the server answered for its window, at its place in the answer |
| Stream.DefaultChunksFitTheBuffer | web/js/crypto/stream-decrypt.js:7-10 | at the default chunk size the buffer stays below MAX_BUFFER_SIZE |
| Stream.DecryptWithRangeRequests | web/js/crypto/stream-decrypt.js:25-212 | against any server: succeeds with the content written exactly when what is delivered decrypts; otherwise aborts, having written the content of all chunks before the first that is cut off or does not open, and nothing without a complete header; each error exactly in its case; a first answer that is no 206 of its size aborts with nothing written, any later one before more is written than lies before it; bounds the buffer |
| Stream.RangeRequestsRefineInMemory | web/js/crypto/stream-decrypt.js:129-211 | against an exact server the Range-request form agrees with `decryptFile` on every blob with a complete header, and fails on the others |
| Stream.InfoAgrees | web/js/crypto/stream-decrypt.js:220-253 | file information is found exactly when the header is complete within 2 KB, and is the name and size the decryptors use |
| Wire.InfoByByte | web/js/crypto/stream-decrypt.js:220-253 | against any server: information is found exactly in a 206 answer that holds a complete header, and is the name and size written there |
| Encrypt.EncryptFile | web/js/crypto/encrypt.js:16-82 | fails exactly for names over 1024 UTF-16 units and otherwise gives the header followed by the sealed chunks |
| Encrypt.EncryptedLength | web/js/crypto/encrypt.js:37-81 | the blob has 26 + name + content + 16 * chunks bytes |
| Encrypt.Writing.ChunkInBody | web/js/crypto/encrypt.js:47-71 | the bytes at the decryptor's offsets for chunk i are sealed chunk i |
| Wire.HeaderOnTheWire | web/js/crypto/encrypt.js:35-45 | an encrypted file starts with its header, and an empty one is nothing else |
| Wire.ChunkOnTheWire | web/js/crypto/encrypt.js:47-71 | the bytes from 26 + name + i * (chunkSize + 16) on are slice i of the content, sealed under its own IV, with the header as additional data of chunk 0 and none of the others |
| Encrypt.RoundTrip | web/js/crypto/encrypt.js:16-82 | for every content and chunk size, both decryptors give name and content back exactly when the name has at most 1024 UTF-8 bytes, whatever follows the blob |
| Encrypt.AcceptedNameThatDoesNotDecrypt | web/js/crypto/encrypt.js:18-20 | a name of 513 UTF-16 units that is encrypted and never decrypted |
| Authenticity.NoncesAreDistinct | web/js/crypto/encrypt.js:47-69 | no IV is used twice in a run of up to 2^32 chunks |
| Authenticity.OnlyHeaderOpens | web/js/crypto/encrypt.js:60-62 | what opens as chunk 0 was sealed as chunk 0 under exactly this header |
| Authenticity.OnlyChunkOpens | web/js/crypto/encrypt.js:54-71 | what opens as chunk i is the i-th sealed chunk of the run |
| Authenticity.UniqueDecoding | web/js/crypto/decrypt.js:57-93 | a blob declaring a positive size that decrypts is the encrypted file, possibly with bytes after it, and yields exactly name and content |
| Authenticity.WritesOnlyContent | web/js/crypto/stream-decrypt.js:150-211 | whatever a server delivers and wherever the run stops, what the Range-request form has written is a prefix of the file's content |
| Authenticity.IdealIsSatisfiable | web/js/crypto/decrypt.js:57-81 | the ideal cipher assumed there exists and still decrypts the file |
| Authenticity.ZeroSizeNeedsNoKey | web/js/crypto/decrypt.js:34-38 | a header that declares size 0 is accepted under any key, so the claim needs a positive size |
| Base64Url.FromBase64Url | web/js/crypto/utils.js:35-48 | decodes the padded standard form of the text, for every text |
| Base64Url.PaddingRestored | web/js/crypto/utils.js:22-41 | undoing the substitutions and padding gives back exactly the standard text |
| Base64Url.AtobOfBtoa | web/js/crypto/utils.js:22-48 | decoding the standard text of any bytes gives them back (section 4 of RFC 4648) |
| Base64Url.KeyTextRoundTrip | web/js/crypto/utils.js:22-48 | any bytes survive the URL-safe form, which has ceil(4n/3) characters, all URL-safe (sections 3.2 and 5 of RFC 4648) |
| Base64Url.KeyTextByCharacter | web/js/crypto/utils.js:22-28 | character i of the text is the symbol of table 2 in section 5 of RFC 4648 for bits 6i to 6i + 5, and there are ceil(4n/3) |
| Base64Url.UrlTextDecodes | web/js/crypto/utils.js:35-48 | a text in the URL-safe alphabet decodes to its digits, or to nothing when one character is left over |
| Base64Url.DecodedByByte | web/js/crypto/utils.js:42-46 | every byte of the result by the bits of the digits it comes from |
| Base64Url.WhitespaceMakesNoDifference | web/js/crypto/utils.js:42-42 | a whitespace character makes no difference to the decoder, wherever it stands |
| Store.SQLiteStore.SaveFileMetadata | internal/store/sqlite.go:72-78 | inserts a new row; an existing key or a failed statement leaves the table as it was |
| Store.SQLiteStore.UpdatePaymentStatus | internal/store/sqlite.go:101-134 | marks an existing row paid and sets its expiry from the stored host duration, or reports that there is none |
| Store.SQLiteStore.ListExpiredFiles | internal/store/sqlite.go:151-174 | exactly the rows whose expiry is before now, paid or not, each once |
| Store.SQLiteStore.SavePendingInvoice | internal/store/sqlite.go:251-257 | inserts or replaces the row of the hash |
| Files.FileService.CompleteUpload | internal/files/service.go:107-142 | succeeds exactly for a stored blob without a row, and records its size unpaid, to expire after 15 minutes, with 7 days to follow |
| Files.FileService.Download | internal/files/service.go:145-196 | succeeds exactly when the row is paid and not expired and the blob is there and readable; each error exactly in its case |
| Files.FileService.CleanupExpired | internal/files/service.go:230-259 | under any failures: every file whose expiry is before now, paid or not, loses its blob unless that fails, then its row unless that fails, and nothing else goes; the count is the rows removed |
| Files.FailuresAreMadeUpFor | internal/files/service.go:227-259 | any passes with any failures, then one without, end exactly where that one alone would, with nothing due left |
| Expiry.KeptFifteenMinutes | internal/files/service.go:128-135 | over every run, while the clock is at most 15 minutes past the time its upload handler began, a row is not listed by the cleanup and not removed, nor is its blob |
| Expiry.ListedAfterwards | internal/store/sqlite.go:151-155 | left unpaid, it is on the list of any pass after that |
| Expiry.CleanPassTakesAllOver | internal/files/service.go:230-259 | a pass none of whose steps fails takes exactly the rows whose expiry is before now, and their blobs |
| Expiry.PaidFileGoes | internal/files/service.go:240-252 | so after its paid period a file is gone, row and blob |
| Expiry.SweepForgets | internal/api/pending_limiter.go:87-108 | the limiter's cleanup forgets exactly the files tracked more than 15 minutes ago |
| Payments.PaymentService.CreateInvoiceForFile | internal/payments/service.go:49-82 | the invoice is registered under hash and file, and its row stored unless the statement fails; no invoice, no change |
| Payments.PaymentService.HandlePayment | internal/payments/service.go:132-164 | a pending hash leaves both maps, its row goes, its file is marked and the limiter told, each statement unless it fails; an unknown hash changes nothing |
| Payments.PaymentService.LoadPendingInvoices | internal/payments/service.go:168-196 | the stored rows are registered one by one in the order listed |
| Payments.LoadedIsStored | internal/payments/service.go:168-196 | after a load into empty maps the pending invoices are exactly the rows, and every file is filed under one of its own |
| Limiter.PendingFileLimiter.TrackPendingFile | internal/api/pending_limiter.go:53-62 | the file is filed under the address with the time, in both maps |
| Limiter.PendingFileLimiter.OnPaymentReceived | internal/api/pending_limiter.go:66-82 | the file leaves both maps, and its address too when it was the last |
| Limiter.PendingFileLimiter.CleanupExpired | internal/api/pending_limiter.go:87-108 | in any iteration order exactly the entries before the cutoff go, and their number is returned |
| LimiterLaws.AlwaysValid | internal/api/pending_limiter.go:53-108 | over all runs no address is kept without files and every reverse entry is counted, even with files tracked from several addresses |
| LimiterLaws.IndexIsRelation | internal/api/pending_limiter.go:53-108 | throughout a run the two maps are one relation of file, address and time exactly when no file is tracked while it stands at another address |
| LimiterLaws.CountIsExact | internal/api/pending_limiter.go:30-44 | under that condition the number compared with the limit is the number of the client's files in the relation |
| LimiterLaws.RemovedIsExact | internal/api/pending_limiter.go:91-108 | under that condition the number a cleanup returns is the number of files that leave the relation |
| LimiterLaws.PayLeavesIfElsewhere | internal/api/pending_limiter.go:66-82 | a payment leaves its file counted exactly if it was counted at an address other than the reverse map's, or was missing from that map |
| LimiterLaws.TwoHomesLeaveATrace | internal/api/pending_limiter.go:53-82 | tracked from two addresses, a file stays counted at the first after it is paid |
| Overshoot.LoadIsBounded | internal/api/handler.go:103-110 | over every run in which a client keeps at most k uploads started, counted files plus started uploads never exceed maxPending - 1 + k |
| Overshoot.SequentialClientsStayWithinLimit | internal/api/handler.go:103-193 | a client that finishes each upload before the next never exceeds the limit |
| Overshoot.BoundIsReached | internal/api/handler.go:103-193 | for every limit and every k a run of such a client attains the bound with counted files |
| Limits.SameIndex | internal/api/handler.go:98-193 | over every run of the server with fresh IDs and no restart, the index the limit is read from is the one the overshoot bound is about |
| Limits.WaitingIsBounded | internal/api/handler.go:98-193 | over every such run in which an address keeps at most k uploads open, its files waiting for payment plus its open uploads never exceed maxPending - 1 + k |
| NoFreeDownload.RunTraced | internal/payments/service.go:49-164 | over every run each pending, stored or settling invoice was created for its file, and each paid row was settled |
| NoFreeDownload.DownloadsArePaidFor | internal/files/service.go:145-160 | over every run, with crashes, failures and reused IDs: a download that succeeds is for a file that was invoiced and whose invoice was reported settled afterwards |
| Machine.FailureWritesNothing | internal/store/sqlite.go:72-149 | a statement or deletion that fails leaves rows, blobs and maps as they were |
| Hosting.ExpiryNeverEarlier | internal/store/sqlite.go:110-116 | in every reachable state and for every step, a row that stays does not expire earlier and does not become unpaid |
| Hosting.PaidExpiryBounds | internal/store/sqlite.go:110-116 | the paid period ends less than a second before its nominal end, and exactly there at whole seconds |
| Hosting.PaidIsHosted | internal/files/service.go:145-259 | a payment recorded at a reachable state keeps the file downloadable to the end of the period in every continuation, exactly if row and blob are there and no cleanup pass has it listed |
| Hosting.PaymentBuysHosting | internal/payments/service.go:132-164 | a run: an upload paid in time is hosted for the whole period |
| Hosting.CleanupOvertakesPayment | internal/files/service.go:230-259 | a run: paid while a cleanup pass has it listed, with row and blob still there, a file is not hosted |
| Hosting.RowGoesWithBlob | internal/files/service.go:240-252 | over every run, a cleanup step that removes a row leaves its blob exactly if the file was uploaded again since the blob was deleted |
| Hosting.PutBackLeavesBlob | internal/files/service.go:79-86 | a run in which that happens |
| Recovery.PendingIsStored | internal/payments/service.go:63-150 | after every step pending invoices are among the stored ones with the same contents, and between operations they are equal |
| Recovery.CrashRestoresPending | internal/payments/service.go:168-196 | a crash and reload keeps every pending invoice, and restores the map exactly between operations |
| Recovery.CrashRestoresBooks | internal/payments/service.go:168-196 | with one invoice for each file both maps are restored exactly |
| Recovery.NothingForgotten | internal/payments/service.go:132-150 | from any state, over any run, whatever fails: a stored invoice stays stored until its settlement marks the file, unless that mark fails or a crash hits between the two statements |
| Recovery.ForgottenIffCutOrUnmarked | internal/payments/service.go:142-150 | over every reliable run, a stored invoice is unknown to maps, rows and watcher with its file not marked for it exactly if a crash hit between the two statements, or the mark failed or found no row |
| Recovery.ForgottenForGood | internal/payments/service.go:132-196 | such a hash stays unknown in every reliable continuation, and reporting it changes nothing |
| Recovery.CrashBetweenForgets | internal/payments/service.go:144-150 | right after that crash no map and no row knows the hash, and the tables are as before |
| Recovery.CrashLosesPayment | internal/payments/service.go:144-150 | a reliable run in which the crash loses a payment |
| Recovery.FailedMarkLosesPayment | internal/payments/service.go:148-150 | a reliable run in which the failed mark loses a payment, its file left unpaid |
| Recovery.SettledAcrossRestarts | internal/payments/service.go:132-196 | over reliable runs a settlement that reached its mark changes nothing when reported again, across restarts |
| Losses.ForgottenIffLost | internal/payments/service.go:71-150 | over every run with fresh hashes, whatever statements fail: an issued invoice is known to nothing and its file not marked for it exactly if it had no row at a crash or at a mark that failed or found no file |
| Losses.LostForGood | internal/payments/service.go:132-196 | such an invoice stays unknown in every continuation, and reporting it changes nothing |
| Losses.UnwrittenRowLosesPayment | internal/payments/service.go:71-74 | a run: the row cannot be written, the invoice is pending, a crash hits before it is paid, and its payment is lost |
| Repeats.SettledOnce | internal/payments/service.go:132-164 | whatever statements fail, until the next restart a settlement that was taken up changes nothing when reported again, expiry included; only hashes must be fresh |
| Repeats.RestartRepeats | internal/payments/service.go:168-196 | after a restart a report takes effect exactly if the row of its invoice was stored and no settlement deleted it |
| Repeats.DuplicateMovesExpiry | internal/store/sqlite.go:110-116 | a run: the deletion failed, the rows were read again, and the second report marks the file again with a later expiry |
| Agreement.LimiterAgreesWithStore | internal/api/handler.go:169-193 | over every run with fresh IDs and no restart, whatever fails and whenever payments come: an unpaid unexpired file of a known address whose handler is done is counted there exactly if its invoice was created and the limiter was not told of a payment since; no file is counted elsewhere; of every paid file the limiter was told or is next |
| Agreement.NeverUndercounts | internal/api/pending_limiter.go:30-36 | in every state of such a run the count an upload is admitted by is at least the number of invoiced files its address has waiting for payment |
| Lingering.SettledLingersIffToldEarly | internal/api/handler.go:182-193 | over every such run, a file whose handler is done and whose payment the limiter was told of is counted at some state since then exactly if the limiter was told while the handler was in progress, for a known address |
| Lingering.EarlyPaymentLingers | internal/api/handler.go:182-193 | a run: the invoice is paid before its file is tracked; all is done, the file is paid and counted |
| Lingering.SecondAddressLingers | internal/api/pending_limiter.go:53-82 | a run: the row is cleaned up, the entry stays, the ID is uploaded and paid from another address and stays counted at the first |
| Server.Server.UploadInit | internal/api/handler.go:98-144 | accepted exactly below the pending limit with a size from 1 byte to 5 GB; each refusal exactly in its case |
| Server.FileIdIs | internal/api/handler.go:17-68 | a valid file ID is 1 to 64 ASCII letters and digits |
| Server.Server.UploadStream | internal/api/handler.go:212-243 | with a valid ID and a length up to 5 GB the blob is stored or, when storage fails, whatever part it left; otherwise nothing changes |
| Server.Server.Restart | cmd/server/main.go:151-156 | a new server on the old storage and database is the machine's state after a crash and load |
| Server.Server.UploadComplete | internal/api/handler.go:146-207 | equals the machine's six upload steps in order, and is accepted exactly when all of them succeed; the invoice is for 1 sat per MiB stored, at least 100 |
| Server.Server.Settle | internal/payments/service.go:132-164 | equals the machine's four settlement steps in order |
| Server.Server.Cleanup | cmd/server/main.go:172-195 | one pass over the files and one over the limiter, for every pattern of failures |
| Server.CompletedIs | internal/api/handler.go:168-193 | uninterrupted, the upload steps come to nothing, an unpaid row, or a row with a registered invoice and a tracked file |
| Server.TickedIs | internal/files/service.go:230-259 | whatever order files are listed in, the uninterrupted cleanup steps are that one pass |
| Eviction.Limiter.Allow | internal/api/middleware.go:221-225 | a token bucket: a request passes exactly when a refilled token is there, and takes it |
| Buckets.PassesIffRoom | internal/api/middleware.go:221-225 | a request passes exactly if, since every earlier one that passed, no more have passed than the burst and what the rate earned in the time between |
| Buckets.NoWindowExceeds | internal/api/middleware.go:84-95 | so in no window more requests pass than the burst and what the rate earns in it |
| Buckets.DefaultsExceedNoWindow | internal/api/middleware.go:97-104 | with the defaults that is 20 and 10 a second, and for uploads 3 and 10 a minute |
| Eviction.IpRateLimiter.GetLimiter | internal/api/middleware.go:138-156 | an address keeps its bucket, a new one gets a full bucket, and nothing but its last-seen second changes |
| Eviction.IpRateLimiter.Request | internal/api/middleware.go:218-225 | a request takes a token from the bucket of its own address and from no other |
| Eviction.RateLimiterMiddleware.Middleware | internal/api/middleware.go:209-228 | a POST to exactly the upload path is held to the stricter limiter and any other request to the general one; the other limiter is untouched |
| Eviction.IpRateLimiter.Cleanup | internal/api/middleware.go:174-190 | exactly the addresses last seen before the cutoff second are dropped, and their number is returned |
| EvictionLaws.GoesAfterTimeToLive | internal/api/middleware.go:138-185 | an address seen within the time to live stays, one not seen for it and a second more goes |
| EvictionLaws.LookIsLooked | internal/api/middleware.go:138-156 | a lookup event does to the pool what `GetLimiter` does to the objects |
| EvictionLaws.UseIsUsed | internal/api/middleware.go:221-225 | a use event does what `Allow` does to the bucket filed under the address, with the same answer |
| EvictionLaws.CleanIsCleaned | internal/api/middleware.go:174-185 | a cleanup event does what `Cleanup` does |
| EvictionLaws.DroppedIsFull | internal/api/middleware.go:174-185 | an entry is dropped only after its bucket has filled up, truncation to seconds included |
| EvictionLaws.EvictionIsUnobservable | internal/api/middleware.go:138-185 | over every timely run with cleanups anywhere, also between a request's lookup and its use, all decisions equal those without eviction |
| EvictionLaws.DefaultsAreLongEnough | internal/api/middleware.go:97-104 | the default rates, bursts and 10-minute time to live meet the condition, for requests delayed up to 9 minutes |
| EvictionLaws.TooShortShows | internal/api/middleware.go:174-185 | for every burst and delay that miss the condition, a timely run whose decisions differ |
| EvictionLaws.UnobservableIffLongEnough | internal/api/middleware.go:138-185 | eviction shows in no timely run exactly when an empty bucket fills up in the time to live and one nanosecond, less the longest delay of a request |

## Left out

- Container.Decrypted: the text of a name; `TextDecoder` replaces malformed UTF-8 and drops a leading byte order mark, and the model compares the bytes.
- Container.CountIsCeiling: floating point division and products above 2^53, which need files larger than the browser can hold; the parsed size itself is rounded as a double.
- Decrypt.DecryptFile: the chunk loop's turn and body are separate methods here; progress callbacks and thrown messages are not modelled.
- Encrypt.EncryptFile: the chunk size is a parameter, where the source passes its constant; random generation of the IV is a parameter.
- Stream.DecryptWithRangeRequests: rejected fetches and failing writes of the output stream; the server is a function from a range to a status and a body.
- Store.SQLiteStore.UpdatePaymentStatus: SQL text, date formats and time zones; times are integers in nanoseconds and the paid expiry is in whole seconds.
- Files.FileService.CompleteUpload: the size mismatch log line; the source accepts a mismatch, and so does the model.
- Files.FileService.Download: whether a reader can seek, and the content of a blob; a later PUT to an existing ID replaces content, so presence is claimed and not immutability.
- Payments.PaymentService.HandlePayment: its contract gives the final state; that the row is deleted before the file is marked is in `Machine` and matters to `Recovery`.
- Payments.PaymentService.CreateInvoiceForFile: both Lightning clients hand back the requested amount, and the model builds that in; the log lines on failed statements take the first 16 characters of a hash, and real hashes have 64.
- Agreement.LimiterAgreesWithStore: holds for fresh IDs and no restart; a restart empties the limiter while the rows stay.
- Agreement.NeverUndercounts: a file whose mark failed after the limiter was told of its payment does not count as waiting, though its row is unpaid.
- Recovery.ForgottenIffCutOrUnmarked: for runs in which every statement on invoice rows succeeds; `Losses.ForgottenIffLost` does without that.
- Overshoot.LoadIsBounded: that a client keeps at most k uploads started is a hypothesis on the run, and that each completion uses up an admitted start is built into it; the server enforces neither.
- Limits.WaitingIsBounded: the same two hypotheses, fresh IDs and no restart.
- EvictionLaws.EvictionIsUnobservable: token arithmetic over reals, no rounding; requests are assumed to finish within a delay, and each limiter operation is one step.
- Server.Server.UploadStream: the request body; what a failed upload leaves stored is a parameter, any length or nothing.
- AES-GCM itself, HMAC, random generation: foreign calls, represented by laws or parameters.
- `UploadWithProgress` and `MarkPaid` of the file service: the server does not call them; the second is `UpdatePaymentStatus`.
- The Alby HTTP client, webhook signatures, JSON, CORS, logging, routing, the B2 and file system wrappers: input and output.
- The user interface, download page flow and stream saver: no state shared with the modelled parts.
- Statistics, byte formatting, address extraction: single expressions.
