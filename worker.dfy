/** The chain indexer process (src/bin/tx_worker.rs): it resumes from the
    block number stored in `last_sync_block.txt` and, pass after pass, scans
    up to and including the chain tip, recording the transactions of tracked
    accounts. */
module Worker {
  import opened Wrappers
  import opened Text
  import opened TxRecord
  import opened Db
  import opened AccountIds
  import opened Ingest

  /** The block the indexer starts from when the cursor file is absent or unreadable. */
  const DEFAULT_CURSOR: U32 := 1

  const SYNC_FAILED: string := "sync_state failed"
  const FETCH_PANIC: string := "panic: Error fetching block"

  /** The starting cursor: the file's text, trimmed, read as a u32; anything
      else (no file, other text, a value out of range) gives the default. */
  function InitialCursor(file: Option<string>): (c: U32)
    ensures file.None? ==> c == DEFAULT_CURSOR
    ensures file.Some? && ParseUnsigned(Trim(file.value), U32_LIMIT).Some? ==> c == ParseUnsigned(Trim(file.value), U32_LIMIT).value
    ensures file.Some? && ParseUnsigned(Trim(file.value), U32_LIMIT).None? ==> c == DEFAULT_CURSOR
  {
    match file
    case None => DEFAULT_CURSOR
    case Some(text) =>
      match ParseUnsigned(Trim(text), U32_LIMIT)
      case Some(n) => n
      case None => DEFAULT_CURSOR
  }

  /** The cursor the indexer writes is the cursor it reads back. */
  lemma CursorFileRoundTrip(n: U32)
    ensures InitialCursor(Some(ToDecimal(n))) == n
  {
    var s := ToDecimal(n);
    assert IsDigit(s[0]) && IsDigit(s[|s| - 1]);
    TrimNoop(s);
    ParseUnsignedToDecimal(n, U32_LIMIT);
  }

  /** The cursor file after a scan's writes. */
  function CursorAfter(lastWrite: Option<nat>, file: Option<string>): (after: Option<string>)
    ensures lastWrite.None? ==> after == file
    ensures lastWrite.Some? && lastWrite.value < U32_LIMIT ==> InitialCursor(after) == lastWrite.value
  {
    if lastWrite.None? then file
    else if lastWrite.value < U32_LIMIT then
      CursorFileRoundTrip(lastWrite.value);
      Some(ToDecimal(lastWrite.value))
    else Some(ToDecimal(lastWrite.value))
  }

  /** Blocks touching no tracked account write neither rows nor the cursor. */
  lemma {:induction false} UntouchedBlocksWriteNothing(t: TxTable, from: nat, end: nat, tracked: set<AccountId>, ledger: Ledger,
                                                      iface: AddressInterface, lastWrite: Option<nat>)
    requires forall j :: from <= j < end ==> ledger.blockByNumber(j).Some? && !Touches(ledger.blockByNumber(j).value, tracked)
    ensures Scan(t, from, end, tracked, ledger, iface, lastWrite) == ScanEnd(t, lastWrite, Completed)
    decreases end - from
  {
    if from < end {
      UntouchedBlocksWriteNothing(t, from + 1, end, tracked, ledger, iface, lastWrite);
    }
  }

  /** A completed pass leaves the cursor at the tip, so the next pass handles
      the tip block again; with the same tracked accounts that adds no row. */
  lemma TipRescanHarmless(t: TxTable, start: nat, tip: nat, tracked: set<AccountId>, ledger: Ledger)
    requires start <= tip
    requires Scan(t, start, tip + 1, tracked, ledger, Unspecified, None).stop == Completed
    ensures var t1 := Scan(t, start, tip + 1, tracked, ledger, Unspecified, None).table;
      var again := Scan(t1, tip, tip + 1, tracked, ledger, Unspecified, None);
      again.table == t1 && again.stop == Completed
  {
    RescanIsHarmless(t, start, tip + 1, tracked, ledger, Unspecified, tip, tip + 1, None);
  }

  /** A pass that fails on an unclassifiable block leaves a cursor at or
      before that block, and a restarted indexer resuming from any such
      cursor fails on the same block again: it can never get past it while
      the tracked accounts stay the same. */
  lemma RestartFailsAgain(t: TxTable, start: nat, end: nat, tracked: set<AccountId>, ledger: Ledger, j: nat, cursor: nat, end': nat)
    requires Scan(t, start, end, tracked, ledger, Unspecified, None).stop == UnknownKindAt(j)
    requires start <= cursor <= j < end'
    ensures var r := Scan(t, start, end, tracked, ledger, Unspecified, None);
      && (r.lastWrite.Some? ==> start < r.lastWrite.value <= j)
      && Scan(r.table, cursor, end', tracked, ledger, Unspecified, None).stop == UnknownKindAt(j)
  {
    var r := Scan(t, start, end, tracked, ledger, Unspecified, None);
    ScanSettlesPrefix(t, start, end, tracked, ledger, Unspecified, None);
    ScanStopsAtBadBlock(t, start, end, tracked, ledger, Unspecified, None);
    StuckOnUnknownKind(r.table, cursor, end', tracked, ledger, Unspecified, None, j);
  }

  /** The indexer between passes: its database, the node, the cursor file on
      disk and the in-memory `last_sync_block`. */
  class IndexWorker {
    const db: AppDb
    const ledger: Ledger
    /** The content of `last_sync_block.txt`, if the file exists. */
    var cursorFile: Option<string>
    var lastSyncBlock: U32

    /** Start-up: the cursor comes from the file. */
    constructor (db: AppDb, ledger: Ledger, cursorFile: Option<string>)
      ensures this.db == db && this.ledger == ledger && this.cursorFile == cursorFile
      ensures lastSyncBlock == InitialCursor(cursorFile)
    {
      this.db := db;
      this.ledger := ledger;
      this.cursorFile := cursorFile;
      this.lastSyncBlock := InitialCursor(cursorFile);
    }

    /** The inner `while i <= latest_block` loop of `main`, from `i` = `from`. */
    method ScanBlocks(tracked: set<AccountId>, from: nat, tip: U32) returns (stop: Stop)
      modifies this`cursorFile, db`txs
      ensures var s := Scan(old(db.txs), from, tip + 1, tracked, ledger, Unspecified, None);
        db.txs == s.table && stop == s.stop && cursorFile == CursorAfter(s.lastWrite, old(cursorFile))
    {
      var i: nat := from;
      ghost var written: Option<nat> := None;
      while i <= tip
        invariant from <= i && (i <= tip + 1 || i == from)
        invariant Scan(old(db.txs), from, tip + 1, tracked, ledger, Unspecified, None)
               == Scan(db.txs, i, tip + 1, tracked, ledger, Unspecified, written)
        invariant cursorFile == CursorAfter(written, old(cursorFile))
        decreases tip + 1 - i
      {
        var block := ledger.blockByNumber(i);
        if block.None? {
          return FetchPanicked(i);
        }
        if !Touches(block.value, tracked) {
          i := i + 1;
          continue;
        }
        var u := UpdateDbRawBlock(db, ledger, tracked, block.value, Unspecified);
        if u.Err? {
          return UnknownKindAt(i);
        }
        i := i + 1;
        cursorFile := Some(ToDecimal(i));
        written := Some(i);
      }
      stop := Completed;
    }

    /** One iteration of the outer loop of `main`: compute the tracked
        accounts, learn the chain tip (`chainTip`, `None` when `sync_state`
        fails), scan `last_sync_block ..= tip`, then store the tip as the
        cursor. An `Err` ends the process. */
    method SyncPass(chainTip: Option<U32>) returns (r: Result<()>)
      modifies this, db`txs
      ensures TrackedAccounts(ledger, db.accounts).Err? || chainTip.None? ==>
        r.Err? && db.txs == old(db.txs) && cursorFile == old(cursorFile) && lastSyncBlock == old(lastSyncBlock)
      ensures TrackedAccounts(ledger, db.accounts).Ok? && chainTip.Some? ==>
        var s := Scan(old(db.txs), old(lastSyncBlock), chainTip.value + 1,
                      TrackedAccounts(ledger, db.accounts).value, ledger, Unspecified, None);
        && db.txs == s.table
        && (r.Ok? <==> s.stop.Completed?)
        && (r.Ok? ==> lastSyncBlock == chainTip.value && cursorFile == Some(ToDecimal(chainTip.value)))
        && (r.Err? ==> lastSyncBlock == old(lastSyncBlock) && cursorFile == CursorAfter(s.lastWrite, old(cursorFile)))
    {
      var tracked := GetAccountsToBeTracked(db, ledger);
      if tracked.Err? {
        return Err(tracked.error);
      }
      if chainTip.None? {
        return Err(SYNC_FAILED);
      }
      var tip := chainTip.value;
      var stop := ScanBlocks(tracked.value, lastSyncBlock, tip);
      match stop
      case FetchPanicked(_) =>
        return Err(FETCH_PANIC);
      case UnknownKindAt(_) =>
        return Err(UNKNOWN_KIND);
      case Completed =>
        lastSyncBlock := tip;
        cursorFile := Some(ToDecimal(tip));
        r := Ok(());
    }
  }
}
