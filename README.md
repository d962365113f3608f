# miden-wallet-server, modelled in Dafny

This project models the core of miden-wallet-server and proves properties of that model. The server has four parts:

- **Indexer.** It walks the Miden chain block by block. For every transaction of a tracked wallet it records a row in the SQLite table `TRANSACTIONS_DETAIL`, and it keeps its position in the cursor file `last_sync_block.txt`.
- **Reset tool.** It optionally wipes the table and re-scans a range of blocks.
- **Query API.** It registers wallets and serves transaction queries, statistics and chart data over HTTP. It is configured by a CORS origin list.
- **Mint server.** It queues `GET /mint/<address>/<amount>` requests. A background processor then mints every queued request in a single batched transaction, and all requests in the batch share that one result.

A separate WebSocket signaling server relays WebRTC offers, answers and ICE candidates between wallets that have registered.

The model has one module per source file, plus shared helpers:

| file | module | models |
|---|---|---|
| `wrappers.dfy` | `Wrappers` | `Option` and `Result` |
| `text.dfy` | `Text` | decimal rendering, Rust `parse::<uN>`, `split`/`join`, `trim`, `trim_start_matches`, `lines().next()` |
| `tx_record.dfy` | `TxRecord` | `src/tx_worker.rs`: the row codec and the four table queries |
| `db.dfy` | `Db` | the SQLite schema and its `INSERT OR IGNORE`/`DELETE` semantics, with class `AppDb` holding the two tables |
| `account_ids.dfy` | `AccountIds` | `src/utils.rs`: legacy bech32 account ids |
| `ingest.dfy` | `Ingest` | `get_accounts_to_be_tracked` and `update_db_raw_block` (identical in both binaries, except for the address interface), and the block scan |
| `worker.dfy` | `Worker` | `src/bin/tx_worker.rs`: the cursor file and the sync loop (class `IndexWorker`) |
| `reset.dfy` | `Reset` | `src/reset_metrics.rs` |
| `mint_server.dfy` | `MintServer` | `src/bin/mint-server.rs`: `bulk_mint`, the queue processor (class `MintService`) and request routing |
| `http_api.dfy` | `HttpApi` | `src/server.rs`: every route handler, CORS and start-up |
| `signaling.dfy` | `Signaling` | `signaling-server/src/index.ts` (class `SignalingServer`) |

## How the model represents the system

- **Table.** A table is a sequence of rows in primary-key order. With `AUTOINCREMENT`, ids ascend, so `ORDER BY id DESC` is the reversed sequence.
- **Outside services.** The chain node, the bech32 parsers, address rendering, `validate_address`, the note fetch and the mint client are function-valued parameters. They are oracles; the model does not look inside them.
- **Panics.** `unwrap`, `expect` and `panic!` become an explicit error or fault outcome. The error string names the panic. In an HTTP handler, a panic (a stored row that fails to decode) closes the connection without any reply; the model writes this as `NoResponse`.
- **Integer widths.** `u32` and `u64` are written out as bounds (`U32_LIMIT`, `U64_LIMIT`). Each truncating cast and each wrapping add is a `%` on that bound.

## Model

| member | source | states |
|---|---|---|
| Text.DigitChar | src/tx_worker.rs:42-46 | the character for a decimal digit is a digit with that value |
| Text.ToDecimal | src/tx_worker.rs:42-46 | `to_string` of an unsigned number is a non-empty run of digits, with one digit exactly when the number is below 10 |
| Text.ValueOfToDecimal | src/tx_worker.rs:42-46 | reading back the decimal rendering of `n` gives `n` |
| Text.ParseUnsigned | src/bin/tx_worker.rs:119 | a successful `parse::<uN>` returns a value below the type's bound, from non-empty text starting with a digit or `+` |
| Text.ParseUnsignedToDecimal | src/bin/mint-server.rs:155-162 | parsing the decimal rendering of any in-range value gives that value back |
| Text.Split | src/bin/mint-server.rs:150 | `split` returns at least one piece and no piece contains the separator |
| Text.JoinSplit | src/server.rs:204-207 | joining the pieces of a split with the separator rebuilds the string |
| Text.SplitJoin | src/server.rs:204-207 | splitting a join of non-empty, separator-free pieces gives the pieces back |
| Text.SplitSeparatorFree | src/bin/mint-server.rs:150 | a string without the separator splits into itself alone |
| Text.SplitAfterPiece | src/bin/mint-server.rs:150 | a separator-free piece followed by the separator splits off as the first piece |
| Text.LeadingWhitespace | src/server.rs:206 | counts exactly the whitespace prefix |
| Text.TrailingWhitespace | src/server.rs:206 | counts exactly the whitespace suffix |
| Text.Trim | src/server.rs:206 | `trim` never lengthens the text and leaves no whitespace at either end |
| Text.TrimIsSlice | src/server.rs:206 | `trim` returns a slice of the input, and everything it removes is whitespace |
| Text.TrimNoop | src/bin/tx_worker.rs:119 | text without whitespace at either end is its own trim |
| Text.TrimStartMatches | src/bin/mint-server.rs:150 | `trim_start_matches` returns a suffix of the input that no longer starts with the pattern |
| Text.LineEnd | src/bin/mint-server.rs:142 | finds the first newline, or the end of the text |
| Text.LineEndAfter | src/bin/mint-server.rs:142 | a newline-free prefix shifts the first newline by its length |
| Text.FirstLineKeepsPrefix | src/bin/mint-server.rs:142 | the first line of text that starts with a newline-free prefix and a space keeps that prefix and space |
| Text.FirstLine | src/bin/mint-server.rs:142 | the first line holds no newline and is a prefix of the text; text without a newline is its own first line |
| Text.JoinAvoids | src/bin/mint-server.rs:150 | a character absent from every piece and different from the separator is absent from their join |
| TxRecord.IntoSqlValue | src/tx_worker.rs:25-51 | the block number and timestamp columns hold their decimal text; the id, kind and sender columns hold the record's fields; a missing note becomes three `"NULL"` texts, and a present note becomes its three fields |
| TxRecord.FromSqlRow | src/tx_worker.rs:53-71 | decoding succeeds exactly when the row has all columns and its block number and timestamp parse as `u32`; it reads the fields back, the block number from column 1 and the timestamp from column 5, and a note column equal to `"NULL"` means no note |
| TxRecord.SelectStarColumns | src/tx_worker.rs:76 | `SELECT *` gives nine columns: the key as decimal text, which reads back as the key, then the eight stored values |
| TxRecord.RowRoundTrip | src/tx_worker.rs:25-71 | decoding the stored encoding of a record gives the record back, unless its note id is the text `"NULL"` |
| TxRecord.NullNoteIdIsLost | src/tx_worker.rs:37-40 | a note whose id is the text `"NULL"` decodes as no note: the round trip fails there |
| TxRecord.SentinelNoteEncodesAsNoNote | src/tx_worker.rs:37-40 | no note and a note of three `"NULL"` texts have the same encoding |
| TxRecord.Where | src/tx_worker.rs:76 | `WHERE col = value` keeps only table rows with that value, never more rows than the table |
| TxRecord.WhereKeepsMatches | src/tx_worker.rs:76 | every row with the value is selected |
| TxRecord.WhereAbove | src/tx_worker.rs:139 | a lower bound on every id in the table bounds every selected id |
| TxRecord.WhereAscending | src/tx_worker.rs:139 | selecting from an id-ordered table keeps id order |
| TxRecord.AscendingCons | src/tx_worker.rs:139 | a row below every id of an ordered sequence can be put in front |
| TxRecord.WhereAppend | src/tx_worker.rs:139 | selecting from a table with one more row selects the old rows plus that row when it matches |
| TxRecord.WhereEmpty | src/tx_worker.rs:139 | the selection is empty exactly when no row has the value |
| TxRecord.NewestFirst | src/tx_worker.rs:117 | `ORDER BY id DESC` on an id-ordered table is the table reversed |
| TxRecord.Window | src/tx_worker.rs:139 | `LIMIT n OFFSET skip` has length `min(n, rows - min(skip, rows))` and takes consecutive rows from `skip` |
| TxRecord.DecodeAll | src/tx_worker.rs:122-126 | decoding a result set succeeds exactly when every row decodes, and then returns each row's record in order; otherwise it is the row panic |
| TxRecord.DecodeStep | src/tx_worker.rs:123-125 | one loop step that decodes a row moves that record from the rest onto the collected prefix |
| TxRecord.DecodeFrom | src/tx_worker.rs:122 | before the loop, nothing has been collected |
| TxRecord.DecodeFails | src/tx_worker.rs:124 | a row that fails to decode makes the whole collection the row panic |
| TxRecord.DecodeDone | src/tx_worker.rs:126 | after the last row, the collection is what was collected |
| TxRecord.CollectTransactions | src/tx_worker.rs:122-126 | the collecting loop returns exactly the decoding of the selected rows |
| TxRecord.GetTxById | src/tx_worker.rs:74-92 | success exactly when one row has the id and it decodes, and then the record has that id; no matching row is the "not found" error |
| TxRecord.NewestFirstDescending | src/tx_worker.rs:117 | reversing an id-ordered table gives descending ids |
| TxRecord.LatestRowsAreNewest | src/tx_worker.rs:115-127 | the latest selection holds `min(10, rows)` rows, newest first, each newer than every row left out |
| TxRecord.LatestRows | src/tx_worker.rs:117 | `ORDER BY id DESC LIMIT 10` gives `min(10, rows)` rows, the k-th being the k-th from the end of the table |
| TxRecord.GetTxsLatest | src/tx_worker.rs:115-127 | returns the decoding of the ten newest rows, and on success `min(10, rows)` records |
| TxRecord.PageOffsetWraps | src/tx_worker.rs:139 | as written, page 429496731 gets offset 4 in `u32` arithmetic, where the intended offset is 4294967300 |
| TxRecord.PageOffset | src/tx_worker.rs:139 | the offset of page `p` is a multiple of 10 whose tenth is `p - 1` |
| TxRecord.PageOffsetAsWritten | src/tx_worker.rs:139 | the `u32` offset is the intended offset modulo 2^32, and equals it exactly when the intended offset fits a `u32` |
| TxRecord.PageOfPosition | src/tx_worker.rs:139 | the k-th newest transaction of an account is entry `k % 10` of page `k / 10 + 1` |
| TxRecord.WindowDescending | src/tx_worker.rs:139 | a window of a descending sequence is descending |
| TxRecord.AccountPageShape | src/tx_worker.rs:130-152 | a page holds `min(10, count - offset)` rows of that sender, newest first |
| TxRecord.AccountPageMembers | src/tx_worker.rs:139 | every row on a page is one of the account's rows |
| TxRecord.AccountPageRows | src/tx_worker.rs:139 | a page is the slice of the sender's newest-first history that starts at the page offset and holds at most 10 rows |
| TxRecord.GetTransactionsByAccount | src/tx_worker.rs:130-152 | page 0 is the "page number" error; otherwise returns the decoding of that page, at most 10 records |
| TxRecord.GetNumberOfTxForAddress | src/tx_worker.rs:154-171 | the count of rows whose sender is the account; an error exactly when the count does not fit a `u32` |
| TxRecord.CountMatchesPages | src/tx_worker.rs:130-171 | a page is non-empty exactly when its offset is below the count, and full when offset + 10 does not exceed the count |
| Db.InsertOrIgnore | src/bin/tx_worker.rs:48-50 | the table is unchanged exactly when the tx id is present or the kind breaks the CHECK constraint; otherwise it gets exactly one new row with the next id |
| Db.DeleteAll | src/reset_metrics.rs:49-51 | `DELETE` empties the table but keeps the autoincrement counter |
| Db.InsertOrIgnoreValid | src/server.rs:229-239 | insertion keeps the schema invariants: ascending ids from 1 and below the counter, unique tx ids, valid kinds |
| Db.DeleteAllValid | src/server.rs:229-239 | deleting keeps the schema invariants |
| Db.InsertOrIgnoreIdempotent | src/bin/tx_worker.rs:49 | inserting the same values twice is inserting them once |
| Db.InsertOrIgnoreStores | src/bin/tx_worker.rs:49 | after an insert with a valid kind, the table has the tx id |
| Db.AtMostOneRowPerTxId | src/server.rs:232 | with unique tx ids, a lookup matches at most one row and never reports a duplicate |
| Db.InsertThenGetById | src/tx_worker.rs:74-92 | a record inserted under a new id is read back unchanged by id |
| Db.ExtendsTransitive | src/bin/tx_worker.rs:49 | "only ever gains rows" is transitive |
| Db.HasTxIdExtends | src/bin/tx_worker.rs:49 | a stored tx id stays stored as the table grows |
| Db.InsertOrIgnoreExtends | src/bin/tx_worker.rs:49 | `INSERT OR IGNORE` only ever gains rows |
| Db.WithAccount | src/server.rs:33-39 | after `INSERT OR IGNORE` into ACCOUNTS, the wallet is present; nothing else is added, earlier wallets keep their order, an existing wallet changes nothing, and wallets stay distinct |
| Db.AppDb.constructor | src/server.rs:215 | a fresh store has no database file and empty tables |
| Db.AppDb.CreateTablesIfAbsent | src/server.rs:215-243 | the file then exists; when it was absent, both tables are empty, and otherwise nothing changes |
| Db.AppDb.InsertAccount | src/server.rs:33-39 | the account list becomes `WithAccount` of the old list, and the invariant holds |
| Db.AppDb.InsertTx | src/bin/tx_worker.rs:103 | the table becomes `InsertOrIgnore` of the old table, and the invariant holds |
| Db.AppDb.DeleteAllTxs | src/reset_metrics.rs:49-51 | the table becomes `DeleteAll` of the old table, and the invariant holds |
| AccountIds.LegacyAccountId | src/utils.rs:7-43 | a decoded id always has 15 bytes |
| AccountIds.LegacyAccountIdOk | src/utils.rs:7-43 | decoding gives `id` exactly when the checksummed payload is the account-id type byte followed by the id's 15 bytes, and `try_from` accepts them |
| AccountIds.LegacyAccountIdErrors | src/utils.rs:10-30 | a bad checksum and a payload not 16 bytes long each give their error; a wrong type byte gives the error naming that byte; a well-typed payload whose id bytes `AccountId::try_from` rejects gives the id-bytes error |
| AccountIds.LegacyAccountIdToBech32 | src/utils.rs:34-42 | the byte-copy loop into a 15-byte buffer computes exactly `LegacyAccountId` |
| Ingest.WalletAccount | src/bin/tx_worker.rs:22-29 | an account-id address gives its id; another address kind is the "not an AccountId" panic; text that is not bech32 falls back to the legacy decoder, whose failure is a panic |
| Ingest.WalletAccounts | src/bin/tx_worker.rs:19-35 | succeeds exactly when every stored wallet resolves, and the set then holds exactly the resolved ids |
| Ingest.TrackedAccounts | src/bin/tx_worker.rs:15-38 | the tracked set always contains the faucet, and exists exactly when every wallet resolves |
| Ingest.WalletStep | src/bin/tx_worker.rs:33-35 | one loop step either stops at the wallet's panic or adds the wallet's id |
| Ingest.GetAccountsToBeTracked | src/bin/tx_worker.rs:15-38 | the accumulating loop computes exactly `TrackedAccounts` |
| Ingest.NoteDataOf | src/bin/tx_worker.rs:63-84 | a failed note fetch records no note, and a fetched public or private note records its data |
| Ingest.Classify | src/bin/tx_worker.rs:59-90 | kind: faucet request exactly for the faucet's transactions, else send when there are output notes (note data from the first one), else receive when there are input notes, else the "unknown kind" error; only send carries a note |
| Ingest.RecordFor | src/bin/tx_worker.rs:92-102 | the record holds the tx id, the kind, the block's number and timestamp, and the sender rendered with the binary's address interface |
| Ingest.ApplyTxs | src/bin/tx_worker.rs:51-105 | processing a block succeeds exactly when every tracked transaction is classifiable, and only adds rows |
| Ingest.ApplyTxsValid | src/bin/tx_worker.rs:41-106 | processing a block keeps the table invariants |
| Ingest.UntrackedTxsIgnored | src/bin/tx_worker.rs:53-55 | transactions of untracked accounts change nothing |
| Ingest.SettledExtends | src/bin/tx_worker.rs:103 | once every tracked transaction of a block is stored, adding rows keeps it so |
| Ingest.ApplyTxsSettles | src/bin/tx_worker.rs:52-104 | after a block is processed, each tracked transaction up to the first unclassifiable one is stored |
| Ingest.SettledNoop | src/bin/tx_worker.rs:103 | re-processing a block whose transactions are all stored changes nothing |
| Ingest.ApplyTxsIdempotent | src/bin/tx_worker.rs:41-106 | processing the same block twice gives the same result as once |
| Ingest.ApplyTxsStoresTracked | src/bin/tx_worker.rs:52-104 | after a block is processed without error, every tracked transaction's id is in the table |
| Ingest.TouchesNotDisjoint | src/bin/tx_worker.rs:151-152 | a block is handled exactly when the tracked accounts and its updated accounts are not disjoint |
| Ingest.SettledHas | src/bin/tx_worker.rs:103 | in a settled block, every tracked transaction's id is stored |
| Ingest.UpdateDbRawBlock | src/bin/tx_worker.rs:41-106 | the per-transaction loop leaves the table that `ApplyTxs` describes and fails only with "Unknown tx kind" |
| Ingest.Scan | src/bin/tx_worker.rs:130-160 | the block scan only adds rows; the cursor it writes lies past `from` and at most at the end, and not beyond the block where it stopped |
| Ingest.BlockSettledExtends | src/bin/tx_worker.rs:103 | a block whose tracked transactions are all stored stays so as the table grows |
| Ingest.ScanValid | src/bin/tx_worker.rs:130-160 | scanning keeps the table invariants |
| Ingest.ScanSettlesPrefix | src/bin/tx_worker.rs:130-160 | every block before the point where the scan stopped has all its tracked transactions stored |
| Ingest.CursorBehindFrontier | src/bin/tx_worker.rs:156-159 | the cursor written is never beyond the settled prefix, so a restart from it skips no unstored transaction |
| Ingest.ScanSettledNoop | src/bin/tx_worker.rs:130-160 | scanning blocks that are all settled changes nothing and completes |
| Ingest.RescanIsHarmless | src/bin/tx_worker.rs:130-160 | after a completed scan, re-scanning any sub-range changes nothing |
| Ingest.ScanStoresTracked | src/bin/tx_worker.rs:130-160 | after a completed scan, every tracked transaction of every scanned block is stored |
| Ingest.ScanStopsAtBadBlock | src/bin/tx_worker.rs:156 | a scan stopped by "Unknown tx kind" stopped at a block that touches a tracked account and has an unclassifiable transaction |
| Ingest.StuckOnUnknownKind | src/bin/tx_worker.rs:156 | once every block before an unclassifiable one is settled, every scan over it stops there |
| Worker.InitialCursor | src/bin/tx_worker.rs:117-120 | a missing file gives 1; otherwise the trimmed text read as a `u32`, with 1 when it does not parse |
| Worker.CursorFileRoundTrip | src/bin/tx_worker.rs:117-120 | the cursor written to the file is the cursor read back at restart |
| Worker.CursorAfter | src/bin/tx_worker.rs:156-159 | with no block written the cursor file is unchanged; after a write of a `u32` block number, a restart reads that number back |
| Worker.UntouchedBlocksWriteNothing | src/bin/tx_worker.rs:152-155 | blocks that touch no tracked account write neither rows nor the cursor |
| Worker.TipRescanHarmless | src/bin/tx_worker.rs:161-163 | the next pass re-scans the tip block, and that changes nothing |
| Worker.RestartFailsAgain | src/bin/tx_worker.rs:156-159 | after a pass stops on an unknown kind, the cursor is not beyond that block, so a restart stops there again |
| Worker.IndexWorker.constructor | src/bin/tx_worker.rs:117-120 | the worker starts at `InitialCursor` of the cursor file |
| Worker.IndexWorker.ScanBlocks | src/bin/tx_worker.rs:130-160 | the block loop leaves the table and the stop reason that `Scan` describes, and the cursor file holds its last write |
| Worker.IndexWorker.SyncPass | src/bin/tx_worker.rs:121-165 | a failed account lookup or chain query changes nothing; otherwise the table is the scan up to and including the tip, and success (which sets the cursor to the tip) happens exactly when the scan completes |
| Reset.StartTable | src/reset_metrics.rs:49-51 | with `wipe`, the scan starts from an empty table; otherwise from the table as it is |
| Reset.ApplyTxsIgnoresBlocks | src/reset_metrics.rs:103-168 | processing a block does not read other blocks |
| Reset.ScanReadsOnlyRange | src/reset_metrics.rs:67-96 | the scan reads only the blocks in `[start, tip)` |
| Reset.RerunWithoutWipeAddsNothing | src/reset_metrics.rs:41-100 | re-running a completed reset without wiping changes nothing |
| Reset.ApplyTxsRowsFromBlock | src/reset_metrics.rs:103-168 | each row a block adds carries the block's number and the tx id of one of its tracked transactions |
| Reset.ScanRowsFromRange | src/reset_metrics.rs:69-97 | scanning `from .. end` adds only rows stored for blocks of that range |
| Reset.WipeKeepsOnlyRangeRows | src/reset_metrics.rs:49-97 | after a wipe, every row left by the reset was stored for a tracked transaction of a block in `start .. tip`: no old row survives |
| Reset.ScanBlocks | src/reset_metrics.rs:67-96 | the loop over `[start, tip)` leaves the table that `Scan` describes, with `BasicWallet` addresses |
| Reset.ResetMetrics | src/reset_metrics.rs:41-100 | a failed chain query or account lookup leaves only the wipe; otherwise the table is the wiped or kept table scanned over `[start, tip)`, with success exactly when the scan completes; the invariant holds |
| MintServer.Resolved | src/bin/mint-server.rs:41-60 | no more notes than requests |
| MintServer.NotesFor | src/bin/mint-server.rs:41-60 | on success the notes are those of the requests whose address is an account id, in order; an asset panic implies some amount is refused and cannot happen when every amount is accepted |
| MintServer.Submit | src/bin/mint-server.rs:66-89 | success with the executed transaction's digest exactly when execution succeeds and the submission succeeds, or proving fails and local proving succeeds |
| MintServer.BulkMintDigest | src/bin/mint-server.rs:66-85 | a successful batch returns the digest of the executed transaction built from the resolved notes |
| MintServer.BulkMintSpec | src/bin/mint-server.rs:38-90 | the batch panics exactly when an amount is not a valid asset; a note that cannot be built ends it with that error; a successful batch carries what executing the resolved notes returned |
| MintServer.UnresolvedSkipped | src/bin/mint-server.rs:43-49 | a request whose address does not resolve to an account id is skipped |
| MintServer.NotesStep | src/bin/mint-server.rs:41-60 | one loop step: asset panic, skip, note-creation error, or one more note |
| MintServer.BulkMint | src/bin/mint-server.rs:38-90 | the minting loop computes exactly `BulkMintSpec` |
| MintServer.MintData | src/bin/mint-server.rs:120-123 | the batch data keeps each request's address and amount, in order |
| MintServer.DeliverBelow | src/bin/mint-server.rs:127-129 | delivering only to issued tickets keeps every ticket below the next one |
| MintServer.Deliver | src/bin/mint-server.rs:127-129 | every request in the batch receives the same delivery, and earlier deliveries are kept |
| MintServer.Await | src/bin/mint-server.rs:181-187 | a timeout, a result or a closed channel each give their answer; otherwise the handler is still waiting |
| MintServer.MintResponse | src/bin/mint-server.rs:189-208 | 200 with the digest exactly on success; otherwise 500 with `Error: ` and the message |
| MintServer.MintService.constructor | src/bin/mint-server.rs:34-36 | an empty queue and a live processor |
| MintServer.MintService.Enqueue | src/bin/mint-server.rs:168-179 | appends the request under a fresh ticket |
| MintServer.MintService.Drain | src/bin/mint-server.rs:104-111 | takes every queued request in order and leaves the queue empty |
| MintServer.MintService.ProcessBatch | src/bin/mint-server.rs:101-130 | an empty queue or a dead processor changes nothing; otherwise the queue is drained into one batch, every request is answered with the batch's one result, and a panic in the batch kills the processor and drops every answer |
| MintServer.MintService.RunBatch | src/bin/mint-server.rs:120-129 | records the batch and delivers its result, or on a panic drops the answers and stops the processor |
| MintServer.MintService.SendAll | src/bin/mint-server.rs:127-129 | every request in the batch receives the delivery |
| MintServer.MintService.Answer | src/bin/mint-server.rs:181-208 | a reply is always 200 or 500, and an expired wait is a 500 timeout |
| MintServer.BatchSharesOneResult | src/bin/mint-server.rs:125-129 | any two requests in one batch get the same result |
| MintServer.RouteMintRequest | src/bin/mint-server.rs:141-221 | not found exactly when the request does not start with `GET /mint/`; bad format exactly when it does but the path does not split into two pieces; bad amount exactly when there are two pieces and the second is not a `u64`; a mint carries the first piece as address (without `/`) and the parsed amount |
| MintServer.TrimStartMatchesOnce | src/bin/mint-server.rs:150 | removing a pattern from the front of text that does not start with it again gives that text |
| MintServer.NumeralAvoids | src/bin/mint-server.rs:150 | a numeral contains no non-digit character |
| MintServer.PathOfRequest | src/bin/mint-server.rs:142-149 | the path taken from `GET <path> <rest>` is `<path>` |
| MintServer.RouteOfPath | src/bin/mint-server.rs:148-221 | for every request `GET /mint/<pieces joined by '/'> <rest>`: a piece count other than two is bad format, two pieces with an unparsable amount is bad amount, and otherwise a mint of the first piece with the parsed amount |
| MintServer.RequestPath | src/bin/mint-server.rs:142-149 | the second space-separated word of the first line holds no space |
| MintServer.PathParts | src/bin/mint-server.rs:150 | at least one piece, none holding `/`, and re-joining them with `/` gives the path after one `/mint/` prefix was stripped |
| MintServer.MintPathHead | src/bin/mint-server.rs:150 | text starting with `/mint/` starts with `/m` |
| MintServer.PartsOfPath | src/bin/mint-server.rs:150 | `/mint/<address>/<numeral>` splits into the address and the numeral |
| MintServer.RouteRoundTrip | src/bin/mint-server.rs:141-162 | a request built from an address and an amount routes to a mint of exactly that address and amount |
| MintServer.PathAvoids | src/bin/mint-server.rs:149 | a mint path built from a space- and newline-free address has no space or newline |
| MintServer.RequestLayout | src/bin/mint-server.rs:148-149 | a mint request is `GET`, its path and the rest, and starts with `GET /mint/` |
| MintServer.HandleClient | src/bin/mint-server.rs:134-227 | not found, a bad format and a bad amount each give their fixed response and queue nothing; a mint request is queued under a fresh ticket, with no immediate reply |
| HttpApi.AddAddressIfNotThere | src/server.rs:26-47 | an invalid address gives 400 and changes nothing; a valid one gives success, and the account list becomes `WithAccount` |
| HttpApi.AddAddressIdempotent | src/server.rs:33-39 | adding the same address twice is adding it once, and accounts stay distinct |
| HttpApi.CountAsU32 | src/server.rs:88-106 | reading `COUNT(*)` as a `u32` succeeds exactly when the count fits |
| HttpApi.GetStats | src/server.rs:73-120 | JSON exactly when the three counts fit a `u32` and the last-hour query succeeds, otherwise 500; the wallet count is truncated to `u32`, and notes created is send + faucet, wrapping |
| HttpApi.KindsPartition | src/server.rs:233 | with valid kinds, the table size is faucet + send + receive |
| HttpApi.StatsAddUp | src/server.rs:73-120 | on a valid table, stats succeed exactly when the table fits a `u32` and the last-hour count exists; notes created never wraps, notes + receives = total, and faucet ≤ notes ≤ total |
| HttpApi.GetTransactionById | src/server.rs:49-57 | JSON with the stored record exactly when the lookup succeeds; no reply at all exactly when a matching row fails to decode; otherwise 500 |
| HttpApi.LookupFailuresAre500 | src/server.rs:49-57 | an unknown id and an id stored more than once both give 500 |
| HttpApi.StoredTxIsServed | src/server.rs:49-57 | a record inserted by the indexer is served unchanged by id |
| HttpApi.GetTxsLatestApi | src/server.rs:122-127 | JSON with the decoded latest records, at most 10, exactly when they all decode; otherwise the handler panics and sends nothing |
| HttpApi.ListReply | src/server.rs:169-176 | a row that fails to decode leaves the request unanswered, any other query error is 500, an empty result is 404, and anything else is JSON with the records |
| HttpApi.GetTransactionsForAccount | src/server.rs:164-177 | text that is not bech32 gives 400; page 0 gives 500; otherwise the page's reply |
| HttpApi.AccountPageReplyShape | src/server.rs:164-177 | a JSON page holds 1 to 10 records, all sent by that address; a page past the end is 404 |
| HttpApi.GetTxCountForAccount | src/server.rs:179-187 | text that is not bech32 gives 400; otherwise the number of the address's rows, or 500 when it does not fit a `u32` |
| HttpApi.CountAgreesWithPages | src/server.rs:164-187 | a page is served exactly when its offset is below the count the count route returns |
| HttpApi.ChartRows | src/server.rs:146-157 | the rows convert exactly when every day's count fits a `u32`, giving one entry per day in order |
| HttpApi.ChartReply | src/server.rs:154-161 | no days gives 404; a count out of range gives 500; otherwise a non-empty JSON list of the days' entries |
| HttpApi.GetChartData | src/server.rs:154-161 | the collecting loop gives exactly `ChartReply` |
| HttpApi.ParseOrigins | src/server.rs:204-207 | succeeds exactly when every trimmed piece is a valid origin, giving the trimmed pieces in order; otherwise the "Invalid origin URL" panic |
| HttpApi.CorsOrigins | src/server.rs:193-213 | an unset variable allows any origin; any origin exactly when the setting is `*`; otherwise one origin per comma-separated piece |
| HttpApi.CorsListRoundTrip | src/server.rs:193-213 | a comma-joined list of valid, trimmed origins configures exactly that list |
| HttpApi.StartServer | src/server.rs:189-243 | the CORS configuration comes first, and its panic leaves the database untouched; otherwise the tables are created only when the file was absent |
| Signaling.FindClient | signaling-server/src/index.ts:20 | `clients.find` returns the first entry with that connection, or none when there is none |
| Signaling.Without | signaling-server/src/index.ts:61 | `filter` never adds entries and drops every entry of the closed connection |
| Signaling.WithoutMembers | signaling-server/src/index.ts:61 | the filtered list holds exactly the other connections' entries |
| Signaling.WithoutOne | signaling-server/src/index.ts:61 | with distinct connections, filtering removes exactly one entry in place |
| Signaling.WithoutAbsent | signaling-server/src/index.ts:61 | filtering out an unknown connection changes nothing |
| Signaling.Unmapped | signaling-server/src/index.ts:63-67 | the wallet map loses exactly the wallets mapped to the closed connection |
| Signaling.Relay | signaling-server/src/index.ts:26-55 | a message goes to the target wallet's connection when it is registered; otherwise the sender gets "Client <to> is offline. please ask them to open app" |
| Signaling.Forwarded | signaling-server/src/index.ts:31-51 | the relayed message has the matching type and carries the sender's wallet |
| Signaling.RelayReachesLiveClient | signaling-server/src/index.ts:26-55 | when the map points only at connected clients, every relay goes to a connected client |
| Signaling.SignalingServer.constructor | signaling-server/src/index.ts:5-7 | no clients and an empty wallet map |
| Signaling.SignalingServer.Connect | signaling-server/src/index.ts:12-14 | a new connection is appended with an empty wallet, under an identity not in use |
| Signaling.SignalingServer.OnMessage | signaling-server/src/index.ts:15-59 | REGISTER from a known connection sets its wallet and maps the wallet to it; a forward from an unknown connection faults; any other forward sends exactly one relayed message; nothing else changes |
| Signaling.SignalingServer.OnClose | signaling-server/src/index.ts:60-68 | the connection's entries are removed and every wallet mapped to it is deleted, keeping the invariant |
| Signaling.ConnectKeepsValid | signaling-server/src/index.ts:12-14 | a fresh connection keeps connections distinct and the map pointing at connected clients |
| Signaling.RegisterKeepsValid | signaling-server/src/index.ts:19-25 | registering keeps the map pointing at connected clients |
| Signaling.DistinctCons | signaling-server/src/index.ts:61 | a new connection in front of distinct connections keeps them distinct |
| Signaling.WithoutKeepsDistinct | signaling-server/src/index.ts:61 | filtering keeps connections distinct |
| Signaling.CloseKeepsValid | signaling-server/src/index.ts:60-68 | closing keeps the map pointing only at connected clients |
| Signaling.KeepEntriesStep | signaling-server/src/index.ts:63-67 | one `forEach` step deletes that wallet exactly when it maps to the closing connection |
| Signaling.ReRegisterOverrides | signaling-server/src/index.ts:23 | re-registering a wallet moves it to the new connection, and closing the old connection then keeps it |
| Signaling.OldWalletStillRoutes | signaling-server/src/index.ts:19-25 | a connection that registers twice keeps both wallets routed to it until it closes, after which both are offline |

## Left out

- **Concurrency and timing.**
  - Threads, the queue mutex, the 10-second processor sleep, the 3-second sync pause and the Tokio runtimes are not modelled. The mint service's steps are methods that a caller interleaves.
  - The 120-second wait of a mint request is an `expired` flag passed to `Await`/`Answer`.
- **I/O failures.** Failures of `Connection::open`, `prepare`, the cursor-file write and socket writes are not modelled. The database file, the tables and the cursor file are fields.
- **Wall clock and date functions.**
  - `get_txs_in_last_hour` (src/tx_worker.rs:94-113) depends on the clock, so its result is a parameter of `HttpApi.GetStats`.
  - The chart query's 30-day window and day grouping (src/server.rs:137-145) are likewise a parameter: the day list given to `HttpApi.GetChartData`.
- **Progress output.** The floating-point progress line and every `println!`/`console.log` are not modelled.
- **The mint client and the chain node.**
  - `init_client_and_prover`, `FungibleAsset::new`, `create_p2id_note`, `new_transaction`, both submission calls, `sync_state` and `get_block_by_number` are oracles in the model.
  - So are `Address::from_bech32`, `to_bech32`, `AccountId::try_from`, the Bech32m checksum and `validate_address`. `validate_address` is not part of this model.
- **`TransactionRequestBuilder::build().unwrap()`** (src/bin/mint-server.rs:62-65) is taken to succeed.
- **Request bytes.**
  - The 1024-byte read, lossy UTF-8 decoding and its NUL padding are not modelled; the request is given as text.
  - HTTP response headers are reduced to status and body.
- **axum routing and path extraction.**
  - A page that is not a `u32` is answered with 400 by the framework before any handler runs.
  - Which of the two `/transactions/{address}/…` routes matches `count` is also the framework's decision.
  - The handlers are modelled from the point where their arguments exist.
- **JavaScript details.**
  - `JSON.parse` failures are not modelled.
  - Neither are prototype keys of `walletClientMap` (a wallet named `__proto__`) or a REGISTER without a `wallet` field.
  - The socket is an opaque connection number.
- **Panic messages.** They are shortened to fixed strings.
- **SQLite errors.** Failing queries are not modelled. The only errors a query returns in the model are the page-number check and a row that fails to decode. So `get_txs_latest_api`'s text reply "Failed to get latest transactions: …" never occurs in `HttpApi.GetTxsLatestApi`. axum sends that reply with status 200.
- **Worker.IndexWorker.SyncPass: cursor overflow.** It does not model the `u32` overflow of the cursor at `u32::MAX`, which no chain reaches.
- **HttpApi.GetStats: overflow on the notes sum.** It models the `u32` add on notes created as wrapping (release builds); a debug build would panic instead. On a valid table the sum never wraps (`HttpApi.StatsAddUp`).
- **TxRecord.PageOffset: release-mode wrap.** The rest of the model uses the intended offset; the release-mode `u32` wrap of `(page_number - 1) * 10` appears only in `TxRecord.PageOffsetAsWritten` (see Findings).
- **Code followed where the written description differs.**
  - A block that touches no tracked account does not write the cursor.
  - The cursor write at the end of a pass is the tip itself, not the tip + 1, so the tip block is scanned again on the next pass (`Worker.TipRescanHarmless`).
  - The reset tool scans `[start, tip)` and so leaves out the tip block.

## Findings

| source | as written | input that shows it | evidently intended | confidence | as-written member | corrected member |
|---|---|---|---|---|---|---|
| src/tx_worker.rs:139 | `(page_number - 1) * 10` is computed in `u32`, which wraps in a release build | page 429496731: the offset wraps to 4, so that page repeats rows 5-14 | offset `(page - 1) * 10` without wrapping: 4294967300, an empty page | not executed | TxRecord.PageOffsetWraps | TxRecord.PageOfPosition |
