/** The re-index job `reset_metrics` (src/reset_metrics.rs): optionally wipe
    TRANSACTIONS_DETAIL, then scan the half-open range `start_block .. tip` once
    with the tracked accounts computed before the scan, printing senders with
    the BasicWallet interface. */
module Reset {
  import opened Wrappers
  import opened Text
  import opened TxRecord
  import opened Db
  import opened AccountIds
  import opened Ingest

  const SYNC_FAILED: string := "sync_state failed"
  const FETCH_PANIC: string := "panic: Error fetching block"

  /** The table the scan starts from. */
  function StartTable(t: TxTable, wipe: bool): (t': TxTable)
    ensures wipe ==> t'.rows == []
    ensures !wipe ==> t' == t
  {
    if wipe then DeleteAll(t) else t
  }

  /** The handling of one block does not look at the node's other blocks. */
  lemma {:induction false} ApplyTxsIgnoresBlocks(t: TxTable, txs: seq<ChainTx>, tracked: set<AccountId>, ledger: Ledger,
                                                blocks: nat -> Option<Block>, iface: AddressInterface, block: Block)
    ensures ApplyTxs(t, txs, tracked, ledger.(blockByNumber := blocks), iface, block)
         == ApplyTxs(t, txs, tracked, ledger, iface, block)
    decreases |txs|
  {
    var ledger' := ledger.(blockByNumber := blocks);
    if txs != [] {
      assert Classify(ledger', txs[0]) == Classify(ledger, txs[0]);
      if txs[0].account !in tracked {
        ApplyTxsIgnoresBlocks(t, txs[1..], tracked, ledger, blocks, iface, block);
      } else if Classify(ledger, txs[0]).Classified? {
        var c := Classify(ledger, txs[0]);
        var t1 := InsertOrIgnore(t, IntoSqlValue(RecordFor(ledger, iface, block, txs[0], c.kind, c.note)));
        assert RecordFor(ledger', iface, block, txs[0], c.kind, c.note) == RecordFor(ledger, iface, block, txs[0], c.kind, c.note);
        ApplyTxsIgnoresBlocks(t1, txs[1..], tracked, ledger, blocks, iface, block);
      }
    }
  }

  /** A scan of `from .. end` reads only the blocks of that range: the node's
      answers for other block numbers, the tip included, do not matter. */
  lemma {:induction false} ScanReadsOnlyRange(t: TxTable, from: nat, end: nat, tracked: set<AccountId>, ledger: Ledger,
                                             blocks: nat -> Option<Block>, iface: AddressInterface, lastWrite: Option<nat>)
    requires forall j :: from <= j < end ==> blocks(j) == ledger.blockByNumber(j)
    ensures Scan(t, from, end, tracked, ledger.(blockByNumber := blocks), iface, lastWrite)
         == Scan(t, from, end, tracked, ledger, iface, lastWrite)
    decreases end - from
  {
    var ledger' := ledger.(blockByNumber := blocks);
    if from < end && ledger.blockByNumber(from).Some? {
      var b := ledger.blockByNumber(from).value;
      assert ledger'.blockByNumber(from) == Some(b);
      if !Touches(b, tracked) {
        ScanReadsOnlyRange(t, from + 1, end, tracked, ledger, blocks, iface, lastWrite);
      } else {
        ApplyTxsIgnoresBlocks(t, b.txs, tracked, ledger, blocks, iface, b);
        var a := ApplyTxs(t, b.txs, tracked, ledger, iface, b);
        if a.ok {
          ScanReadsOnlyRange(a.table, from + 1, end, tracked, ledger, blocks, iface, Some(from + 1));
        }
      }
    } else if from < end {
      assert ledger'.blockByNumber(from).None?;
    }
  }

  /** Re-running a completed reset without wiping, over the same range and
      accounts, adds no row. */
  lemma RerunWithoutWipeAddsNothing(t: TxTable, start: nat, tip: nat, tracked: set<AccountId>, ledger: Ledger)
    requires Scan(t, start, tip, tracked, ledger, BasicWallet, None).stop == Completed
    ensures var t1 := Scan(t, start, tip, tracked, ledger, BasicWallet, None).table;
      var again := Scan(StartTable(t1, false), start, tip, tracked, ledger, BasicWallet, None);
      again.table == t1 && again.stop == Completed
  {
    RescanIsHarmless(t, start, tip, tracked, ledger, BasicWallet, start, tip, None);
  }

  /** `row` was stored for a transaction of block `j`: the block is fetched,
      one of its transactions by a tracked account has the row's tx_id, and
      the row's block_num is that block's number. */
  predicate StoredFromBlock(row: Row, tracked: set<AccountId>, ledger: Ledger, j: nat) {
    && ledger.blockByNumber(j).Some?
    && var b := ledger.blockByNumber(j).value;
    && row.values[BLOCK_NUM_COL] == ToDecimal(b.num)
    && exists k :: 0 <= k < |b.txs| && b.txs[k].account in tracked && b.txs[k].id == row.values[TX_ID_COL]
  }

  /** `row` was stored for some block of `lo .. hi`. */
  predicate StoredFromRange(row: Row, tracked: set<AccountId>, ledger: Ledger, lo: nat, hi: nat) {
    exists j :: lo <= j < hi && StoredFromBlock(row, tracked, ledger, j)
  }

  /** Every row was stored for a block of `lo .. hi`. */
  predicate RowsFromRange(rows: seq<Row>, tracked: set<AccountId>, ledger: Ledger, lo: nat, hi: nat) {
    forall i :: 0 <= i < |rows| ==> StoredFromRange(rows[i], tracked, ledger, lo, hi)
  }

  lemma RowsFromWiderRange(rows: seq<Row>, tracked: set<AccountId>, ledger: Ledger, lo: nat, hi: nat, hi': nat)
    requires hi <= hi' && RowsFromRange(rows, tracked, ledger, lo, hi)
    ensures RowsFromRange(rows, tracked, ledger, lo, hi')
  {
    forall i | 0 <= i < |rows|
      ensures StoredFromRange(rows[i], tracked, ledger, lo, hi')
    {
      assert StoredFromRange(rows[i], tracked, ledger, lo, hi);
      var j :| lo <= j < hi && StoredFromBlock(rows[i], tracked, ledger, j);
    }
  }

  /** The row inserted for a tracked transaction of a block was stored for that block. */
  lemma InsertedRowFromBlock(t: TxTable, tx: ChainTx, kind: string, note: Option<NoteData>, tracked: set<AccountId>,
                             ledger: Ledger, j: nat, b: Block)
    requires ledger.blockByNumber(j) == Some(b) && tx in b.txs && tx.account in tracked
    ensures var t1 := InsertOrIgnore(t, IntoSqlValue(RecordFor(ledger, BasicWallet, b, tx, kind, note)));
      t1.rows != t.rows ==> StoredFromBlock(t1.rows[|t.rows|], tracked, ledger, j)
  {
    var k :| 0 <= k < |b.txs| && b.txs[k] == tx;
  }

  /** The rows a block's transactions add were stored for that block. */
  lemma {:induction false} ApplyTxsRowsFromBlock(t: TxTable, txs: seq<ChainTx>, tracked: set<AccountId>, ledger: Ledger,
                                                j: nat, b: Block, t': TxTable)
    requires ledger.blockByNumber(j) == Some(b)
    requires forall m :: 0 <= m < |txs| ==> txs[m] in b.txs
    requires t' == ApplyTxs(t, txs, tracked, ledger, BasicWallet, b).table
    ensures forall i :: |t.rows| <= i < |t'.rows| ==> StoredFromBlock(t'.rows[i], tracked, ledger, j)
    decreases |txs|
  {
    if txs != [] && txs[0].account in tracked && Classify(ledger, txs[0]).Classified? {
      var c := Classify(ledger, txs[0]);
      var v := IntoSqlValue(RecordFor(ledger, BasicWallet, b, txs[0], c.kind, c.note));
      var t1 := InsertOrIgnore(t, v);
      assert forall m :: 0 <= m < |txs| - 1 ==> txs[1..][m] == txs[m + 1];
      assert t' == ApplyTxs(t1, txs[1..], tracked, ledger, BasicWallet, b).table;
      ApplyTxsRowsFromBlock(t1, txs[1..], tracked, ledger, j, b, t');
      if t1.rows != t.rows {
        InsertedRowFromBlock(t, txs[0], c.kind, c.note, tracked, ledger, j, b);
        assert t'.rows[|t.rows|] == t'.rows[..|t1.rows|][|t.rows|];
      }
    } else if txs != [] && txs[0].account !in tracked {
      assert forall m :: 0 <= m < |txs| - 1 ==> txs[1..][m] == txs[m + 1];
      ApplyTxsRowsFromBlock(t, txs[1..], tracked, ledger, j, b, t');
    }
  }

  /** Rows added for a block of the range keep the table within the range. */
  lemma ExtendRowsFromRange(t: TxTable, t': TxTable, tracked: set<AccountId>, ledger: Ledger, lo: nat, hi: nat, j: nat)
    requires Extends(t, t') && RowsFromRange(t.rows, tracked, ledger, lo, hi) && lo <= j < hi
    requires forall i :: |t.rows| <= i < |t'.rows| ==> StoredFromBlock(t'.rows[i], tracked, ledger, j)
    ensures RowsFromRange(t'.rows, tracked, ledger, lo, hi)
  {
    forall i | 0 <= i < |t'.rows|
      ensures StoredFromRange(t'.rows[i], tracked, ledger, lo, hi)
    {
      if i < |t.rows| {
        assert t'.rows[i] == t'.rows[..|t.rows|][i];
      } else {
        assert StoredFromBlock(t'.rows[i], tracked, ledger, j);
      }
    }
  }

  /** A scan of `from .. end` adds only rows stored for blocks of that range. */
  lemma {:induction false} ScanRowsFromRange(t: TxTable, start: nat, from: nat, end: nat, tracked: set<AccountId>, ledger: Ledger,
                                            lastWrite: Option<nat>)
    requires start <= from <= end
    requires RowsFromRange(t.rows, tracked, ledger, start, from)
    ensures RowsFromRange(Scan(t, from, end, tracked, ledger, BasicWallet, lastWrite).table.rows, tracked, ledger, start, end)
    decreases end - from
  {
    if from < end && ledger.blockByNumber(from).Some? {
      var b := ledger.blockByNumber(from).value;
      RowsFromWiderRange(t.rows, tracked, ledger, start, from, from + 1);
      if !Touches(b, tracked) {
        ScanRowsFromRange(t, start, from + 1, end, tracked, ledger, lastWrite);
      } else {
        var a := ApplyTxs(t, b.txs, tracked, ledger, BasicWallet, b);
        ApplyTxsRowsFromBlock(t, b.txs, tracked, ledger, from, b, a.table);
        ExtendRowsFromRange(t, a.table, tracked, ledger, start, from + 1, from);
        if a.ok {
          ScanRowsFromRange(a.table, start, from + 1, end, tracked, ledger, Some(from + 1));
        } else {
          assert RowsFromRange(a.table.rows, tracked, ledger, start, end);
        }
      }
    } else {
      RowsFromWiderRange(t.rows, tracked, ledger, start, from, end);
    }
  }

  /** After a wipe, a reset of `start .. tip` leaves only rows stored for the
      tracked transactions of blocks in that range: none of the old rows is
      left behind. */
  lemma WipeKeepsOnlyRangeRows(t: TxTable, start: nat, tip: nat, tracked: set<AccountId>, ledger: Ledger)
    ensures RowsFromRange(Scan(StartTable(t, true), start, tip, tracked, ledger, BasicWallet, None).table.rows,
                          tracked, ledger, start, tip)
  {
    if start <= tip {
      ScanRowsFromRange(StartTable(t, true), start, start, tip, tracked, ledger, None);
    }
  }

  /** The block loop `while i < latest_block` with `i` from `from`. */
  method ScanBlocks(db: AppDb, ledger: Ledger, tracked: set<AccountId>, from: nat, tip: U32) returns (stop: Stop)
    modifies db`txs
    ensures var s := Scan(old(db.txs), from, tip, tracked, ledger, BasicWallet, None);
      db.txs == s.table && stop == s.stop
  {
    var i: nat := from;
    ghost var written: Option<nat> := None;
    while i < tip
      invariant from <= i && (i <= tip || i == from)
      invariant Scan(old(db.txs), from, tip, tracked, ledger, BasicWallet, None)
             == Scan(db.txs, i, tip, tracked, ledger, BasicWallet, written)
      decreases tip - i
    {
      var block := ledger.blockByNumber(i);
      if block.None? {
        return FetchPanicked(i);
      }
      if !Touches(block.value, tracked) {
        i := i + 1;
        continue;
      }
      var u := UpdateDbRawBlock(db, ledger, tracked, block.value, BasicWallet);
      if u.Err? {
        return UnknownKindAt(i);
      }
      i := i + 1;
      written := Some(i);
    }
    stop := Completed;
  }

  /** `reset_metrics(start_block, endpoint, wipe)`, with `chainTip` the tip
      `sync_state` reports (`None` when it fails). The wipe comes first, so it
      happens even when the node cannot be reached. */
  method ResetMetrics(db: AppDb, ledger: Ledger, startBlock: U32, wipe: bool, chainTip: Option<U32>) returns (r: Result<()>)
    modifies db`txs
    ensures chainTip.None? ==> r == Err(SYNC_FAILED) && db.txs == StartTable(old(db.txs), wipe)
    ensures chainTip.Some? && TrackedAccounts(ledger, db.accounts).Err? ==>
      r.Err? && db.txs == StartTable(old(db.txs), wipe)
    ensures chainTip.Some? && TrackedAccounts(ledger, db.accounts).Ok? ==>
      var s := Scan(StartTable(old(db.txs), wipe), startBlock, chainTip.value,
                    TrackedAccounts(ledger, db.accounts).value, ledger, BasicWallet, None);
      db.txs == s.table && (r.Ok? <==> s.stop.Completed?)
    ensures old(db.Valid()) ==> db.Valid()
  {
    if wipe {
      db.DeleteAllTxs();
    }
    if chainTip.None? {
      return Err(SYNC_FAILED);
    }
    var tip := chainTip.value;
    var tracked := GetAccountsToBeTracked(db, ledger);
    if tracked.Err? {
      return Err(tracked.error);
    }
    ghost var t0 := db.txs;
    var stop := ScanBlocks(db, ledger, tracked.value, startBlock, tip);
    if old(db.Valid()) {
      ScanValid(t0, startBlock, tip, tracked.value, ledger, BasicWallet, None);
    }
    match stop
    case FetchPanicked(_) =>
      return Err(FETCH_PANIC);
    case UnknownKindAt(_) =>
      return Err(UNKNOWN_KIND);
    case Completed =>
      r := Ok(());
  }
}
