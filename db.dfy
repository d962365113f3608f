/** The SQLite database `app_db.sqlite3` shared by the HTTP server, the
    indexer and the re-index job: the ACCOUNTS and TRANSACTIONS_DETAIL tables
    with the constraints of their schema (src/server.rs) and the
    INSERT OR IGNORE statements that fill them. */
module Db {
  import opened Wrappers
  import opened Text
  import opened TxRecord

  /** TRANSACTIONS_DETAIL: its rows in key order and the next AUTOINCREMENT
      key, which a DELETE does not rewind. */
  datatype TxTable = TxTable(rows: seq<Row>, nextId: nat)

  const EMPTY_TX_TABLE: TxTable := TxTable([], 1)

  /** `CHECK(tx_kind IN ('faucet_request', 'send', 'receive'))`. */
  predicate ValidKind(kind: string) {
    kind == FAUCET_REQUEST || kind == SEND || kind == RECEIVE
  }

  predicate HasTxId(rows: seq<Row>, txId: string) {
    exists k :: 0 <= k < |rows| && rows[k].values[TX_ID_COL] == txId
  }

  /** What the schema and AUTOINCREMENT guarantee of the table. */
  ghost predicate TableValid(t: TxTable) {
    && 1 <= t.nextId
    && IdsAscending(t.rows)
    && (forall k :: 0 <= k < |t.rows| ==> 1 <= t.rows[k].id < t.nextId)
    && (forall i, j :: 0 <= i < j < |t.rows| ==> t.rows[i].values[TX_ID_COL] != t.rows[j].values[TX_ID_COL])
    && (forall k :: 0 <= k < |t.rows| ==> ValidKind(t.rows[k].values[TX_KIND_COL]))
  }

  /** `INSERT OR IGNORE INTO TRANSACTIONS_DETAIL ..`: a row clashing with the
      UNIQUE tx_id or failing the tx_kind CHECK is dropped; any other row is
      appended under the next key. */
  function InsertOrIgnore(t: TxTable, v: SqlValues): (t': TxTable)
    ensures t'.rows == t.rows <==> HasTxId(t.rows, v[TX_ID_COL]) || !ValidKind(v[TX_KIND_COL])
    ensures t'.rows != t.rows ==> t'.rows == t.rows + [Row(t.nextId, v)]
    ensures t.nextId <= t'.nextId
  {
    if HasTxId(t.rows, v[TX_ID_COL]) || !ValidKind(v[TX_KIND_COL]) then t
    else TxTable(t.rows + [Row(t.nextId, v)], t.nextId + 1)
  }

  /** `DELETE FROM TRANSACTIONS_DETAIL`. */
  function DeleteAll(t: TxTable): (t': TxTable)
    ensures t'.rows == [] && t'.nextId == t.nextId
  {
    TxTable([], t.nextId)
  }

  /** Inserting keeps every guarantee of the schema. */
  lemma InsertOrIgnoreValid(t: TxTable, v: SqlValues)
    requires TableValid(t)
    ensures TableValid(InsertOrIgnore(t, v))
  {
  }

  lemma DeleteAllValid(t: TxTable)
    requires TableValid(t)
    ensures TableValid(DeleteAll(t))
  {
  }

  /** Running the same insert twice has the effect of running it once. */
  lemma InsertOrIgnoreIdempotent(t: TxTable, v: SqlValues)
    ensures InsertOrIgnore(InsertOrIgnore(t, v), v) == InsertOrIgnore(t, v)
  {
    var t1 := InsertOrIgnore(t, v);
    if t1 != t {
      assert t1.rows[|t.rows|].values[TX_ID_COL] == v[TX_ID_COL];
    }
  }

  /** After an insert some row carries the tx_id, whether the row was new or
      already there, provided its kind is one the schema allows. */
  lemma InsertOrIgnoreStores(t: TxTable, v: SqlValues)
    requires ValidKind(v[TX_KIND_COL])
    ensures HasTxId(InsertOrIgnore(t, v).rows, v[TX_ID_COL])
  {
    var t1 := InsertOrIgnore(t, v);
    if t1 != t {
      assert t1.rows[|t.rows|].values[TX_ID_COL] == v[TX_ID_COL];
    }
  }

  /** The UNIQUE tx_id constraint: a valid table has at most one row per tx_id,
      so `get_tx_by_id` never answers "Failed" on it. */
  lemma {:induction false} AtMostOneRowPerTxId(rows: seq<Row>, txId: string)
    requires forall i, j :: 0 <= i < j < |rows| ==> rows[i].values[TX_ID_COL] != rows[j].values[TX_ID_COL]
    ensures |Where(rows, TX_ID_COL, txId)| <= 1
    ensures GetTxById(rows, txId) != Err(DUPLICATE_TX)
    decreases |rows|
  {
    if rows != [] {
      AtMostOneRowPerTxId(rows[1..], txId);
      if rows[0].values[TX_ID_COL] == txId {
        WhereEmpty(rows[1..], TX_ID_COL, txId);
      }
    }
  }

  /** A newly stored record is found again by its tx_id. */
  lemma InsertThenGetById(t: TxTable, tx: Transaction)
    requires ValidKind(tx.txKind) && !HasTxId(t.rows, tx.txId)
    requires tx.note.None? || tx.note.value.noteId != NULL_TEXT
    ensures GetTxById(InsertOrIgnore(t, IntoSqlValue(tx)).rows, tx.txId) == Ok(tx)
  {
    var v := IntoSqlValue(tx);
    var x := Row(t.nextId, v);
    WhereAppend(t.rows, x, TX_ID_COL, tx.txId);
    WhereEmpty(t.rows, TX_ID_COL, tx.txId);
    RowRoundTrip(t.nextId, tx);
    assert Where(t.rows + [x], TX_ID_COL, tx.txId) == [x];
  }

  /** `t'` holds every row of `t`, in place, possibly followed by more. */
  predicate Extends(t: TxTable, t': TxTable) {
    |t.rows| <= |t'.rows| && t'.rows[..|t.rows|] == t.rows && t.nextId <= t'.nextId
  }

  lemma ExtendsTransitive(t1: TxTable, t2: TxTable, t3: TxTable)
    requires Extends(t1, t2) && Extends(t2, t3)
    ensures Extends(t1, t3)
  {
    assert t3.rows[..|t1.rows|] == t3.rows[..|t2.rows|][..|t1.rows|];
  }

  /** A stored tx_id stays stored when the table only grows. */
  lemma HasTxIdExtends(t: TxTable, t': TxTable, txId: string)
    requires Extends(t, t') && HasTxId(t.rows, txId)
    ensures HasTxId(t'.rows, txId)
  {
    var k :| 0 <= k < |t.rows| && t.rows[k].values[TX_ID_COL] == txId;
    assert t'.rows[k] == t'.rows[..|t.rows|][k];
  }

  lemma InsertOrIgnoreExtends(t: TxTable, v: SqlValues)
    ensures Extends(t, InsertOrIgnore(t, v))
  {
    var t' := InsertOrIgnore(t, v);
    if t'.rows != t.rows {
      assert t'.rows[..|t.rows|] == t.rows;
    }
  }

  /** ACCOUNTS after `INSERT OR IGNORE` of `wallet` into its UNIQUE column:
      the address is present afterwards, nothing else is added, and a second
      insert of the same address changes nothing. */
  function WithAccount(accounts: seq<string>, wallet: string): (r: seq<string>)
    ensures wallet in r && forall x :: x in r <==> x in accounts || x == wallet
    ensures |accounts| <= |r| <= |accounts| + 1 && r[..|accounts|] == accounts
    ensures wallet in accounts ==> r == accounts
    ensures (forall i, j :: 0 <= i < j < |accounts| ==> accounts[i] != accounts[j])
        ==> (forall i, j :: 0 <= i < j < |r| ==> r[i] != r[j])
  {
    if wallet in accounts then accounts else accounts + [wallet]
  }

  /** The database file and its two tables. The store outlives every process
      that opens it; each method is one SQL statement. */
  class AppDb {
    /** Whether `app_db.sqlite3` exists on disk. */
    var fileExists: bool
    /** ACCOUNTS.wallet_address, in key order. */
    var accounts: seq<string>
    var txs: TxTable

    ghost predicate Valid()
      reads this
    {
      && TableValid(txs)
      && (forall i, j :: 0 <= i < j < |accounts| ==> accounts[i] != accounts[j])
    }

    /** A machine with no database file yet. */
    constructor ()
      ensures !fileExists && accounts == [] && txs == EMPTY_TX_TABLE
      ensures Valid()
    {
      fileExists := false;
      accounts := [];
      txs := EMPTY_TX_TABLE;
    }

    /** The schema step of `start_server`: the tables are created only when
        the file is absent; an existing file is used as it is. */
    method CreateTablesIfAbsent()
      modifies this
      ensures fileExists
      ensures !old(fileExists) ==> accounts == [] && txs == EMPTY_TX_TABLE
      ensures old(fileExists) ==> accounts == old(accounts) && txs == old(txs)
      ensures old(Valid()) ==> Valid()
    {
      if !fileExists {
        fileExists := true;
        accounts := [];
        txs := EMPTY_TX_TABLE;
      }
    }

    /** `INSERT OR IGNORE INTO ACCOUNTS (wallet_address) VALUES (?1)` with
        `wallet_address` UNIQUE. */
    method InsertAccount(wallet: string)
      modifies this`accounts
      ensures accounts == WithAccount(old(accounts), wallet)
      ensures old(Valid()) ==> Valid()
    {
      if wallet !in accounts {
        accounts := accounts + [wallet];
      }
    }

    /** The INSERT OR IGNORE of a transaction record. */
    method InsertTx(v: SqlValues)
      modifies this`txs
      ensures txs == InsertOrIgnore(old(txs), v)
      ensures old(Valid()) ==> Valid()
    {
      if Valid() {
        InsertOrIgnoreValid(txs, v);
      }
      txs := InsertOrIgnore(txs, v);
    }

    /** `DELETE FROM TRANSACTIONS_DETAIL`. */
    method DeleteAllTxs()
      modifies this`txs
      ensures txs == DeleteAll(old(txs))
      ensures old(Valid()) ==> Valid()
    {
      txs := DeleteAll(txs);
    }
  }
}
