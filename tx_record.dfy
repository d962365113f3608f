/** The transaction history record, its flattening into a TRANSACTIONS_DETAIL
    row and back (src/tx_worker.rs), and the read-only query helpers over the
    table. The table is the sequence of its rows in primary-key order. */
module TxRecord {
  import opened Wrappers
  import opened Text

  /** Sentinel written into the three note columns when a record has no note. */
  const NULL_TEXT: string := "NULL"

  const FAUCET_REQUEST: string := "faucet_request"
  const SEND: string := "send"
  const RECEIVE: string := "receive"

  /** Rows per page of the history queries. */
  const PAGE_SIZE: nat := 10

  /** Message of the panic `from_sql_row` raises when a column does not convert. */
  const ROW_PANIC: string := "panic: malformed TRANSACTIONS_DETAIL row"
  const NO_TX: string := "No transaction foundd"
  const DUPLICATE_TX: string := "Failed"
  const BAD_PAGE: string := "Page number must be greater than 0"
  const COUNT_RANGE: string := "Error getting transactions: count out of u32 range"

  datatype NoteData = NoteData(noteId: string, noteType: string, noteAux: string)

  datatype Transaction = Transaction(
    txId: string,
    txKind: string,
    sender: string,
    blockNum: U32,
    note: Option<NoteData>,
    timestamp: U32)

  /** The eight values bound to ?1..?8 of the INSERT statement, in the order
      block_num, tx_id, tx_kind, sender, timestamp, note_id, note_type, note_aux. */
  type SqlValues = v: seq<string> | |v| == 8 witness ["", "", "", "", "", "", "", ""]

  const BLOCK_NUM_COL: nat := 0
  const TX_ID_COL: nat := 1
  const TX_KIND_COL: nat := 2
  const SENDER_COL: nat := 3
  const TIMESTAMP_COL: nat := 4

  /** A stored row: the AUTOINCREMENT key and the eight inserted values. */
  datatype Row = Row(id: nat, values: SqlValues)

  // ---------------------------------------------------------------------------
  // Codec

  /** `Transaction::into_sql_value`. */
  function IntoSqlValue(t: Transaction): (v: SqlValues)
    ensures v[BLOCK_NUM_COL] == ToDecimal(t.blockNum) && v[TIMESTAMP_COL] == ToDecimal(t.timestamp)
    ensures v[TX_ID_COL] == t.txId && v[TX_KIND_COL] == t.txKind && v[SENDER_COL] == t.sender
    ensures t.note.None? ==> v[5..] == [NULL_TEXT, NULL_TEXT, NULL_TEXT]
    ensures t.note.Some? ==> v[5..] == [t.note.value.noteId, t.note.value.noteType, t.note.value.noteAux]
  {
    var notes := match t.note
      case None => [NULL_TEXT, NULL_TEXT, NULL_TEXT]
      case Some(n) => [n.noteId, n.noteType, n.noteAux];
    [ToDecimal(t.blockNum), t.txId, t.txKind, t.sender, ToDecimal(t.timestamp)] + notes
  }

  /** The columns `SELECT *` yields for a row: the key first, then the values.
      The INTEGER columns hold the numbers the decimal text denotes, which
      `row.get::<u32>` reads back; that conversion is modelled by `ParseUnsigned`. */
  function SelectStar(r: Row): seq<string> {
    [ToDecimal(r.id)] + r.values
  }

  /** `SELECT *` gives nine columns: the key, which reads back as the key,
      then the stored values. */
  lemma SelectStarColumns(r: Row)
    ensures var cols := SelectStar(r);
      |cols| == 9 && AllDigits(cols[0]) && ValueOf(cols[0]) == r.id && cols[1..] == r.values
  {
    ValueOfToDecimal(r.id);
  }

  /** `Transaction::from_sql_row`; `None` stands for the panic of one of its
      `unwrap`s (a missing column or a number outside u32). */
  function FromSqlRow(cols: seq<string>): (r: Option<Transaction>)
    ensures r.Some? <==> 9 <= |cols| && ParseUnsigned(cols[1], U32_LIMIT).Some?
                                     && ParseUnsigned(cols[5], U32_LIMIT).Some?
    ensures r.Some? ==> (&& Some(r.value.blockNum) == ParseUnsigned(cols[1], U32_LIMIT)
                         && Some(r.value.timestamp) == ParseUnsigned(cols[5], U32_LIMIT))
    ensures r.Some? ==> r.value.txId == cols[2] && r.value.txKind == cols[3] && r.value.sender == cols[4]
    ensures r.Some? ==> (r.value.note.None? <==> cols[6] == NULL_TEXT)
    ensures r.Some? && r.value.note.Some? ==> r.value.note.value == NoteData(cols[6], cols[7], cols[8])
  {
    if |cols| < 9 then None
    else
      var blockNum := ParseUnsigned(cols[1], U32_LIMIT);
      var timestamp := ParseUnsigned(cols[5], U32_LIMIT);
      if blockNum.None? || timestamp.None? then None
      else
        var note := if cols[6] != NULL_TEXT then Some(NoteData(cols[6], cols[7], cols[8])) else None;
        Some(Transaction(cols[2], cols[3], cols[4], blockNum.value, note, timestamp.value))
  }

  /** Reading back a stored record gives the record, unless it carries a note
      whose id is the sentinel text. */
  lemma RowRoundTrip(id: nat, t: Transaction)
    requires t.note.None? || t.note.value.noteId != NULL_TEXT
    ensures FromSqlRow(SelectStar(Row(id, IntoSqlValue(t)))) == Some(t)
  {
    ParseUnsignedToDecimal(t.blockNum, U32_LIMIT);
    ParseUnsignedToDecimal(t.timestamp, U32_LIMIT);
  }

  /** The sentinel flaw: a note whose id is "NULL" comes back as no note at all. */
  lemma NullNoteIdIsLost(id: nat, t: Transaction)
    requires t.note.Some? && t.note.value.noteId == NULL_TEXT
    ensures FromSqlRow(SelectStar(Row(id, IntoSqlValue(t)))) == Some(t.(note := None))
    ensures FromSqlRow(SelectStar(Row(id, IntoSqlValue(t)))) != Some(t)
  {
    ParseUnsignedToDecimal(t.blockNum, U32_LIMIT);
    ParseUnsignedToDecimal(t.timestamp, U32_LIMIT);
  }

  /** The flattening cannot tell "no note" from a note spelled "NULL" three times. */
  lemma SentinelNoteEncodesAsNoNote(t: Transaction)
    ensures IntoSqlValue(t.(note := None)) == IntoSqlValue(t.(note := Some(NoteData(NULL_TEXT, NULL_TEXT, NULL_TEXT))))
  {
  }

  // ---------------------------------------------------------------------------
  // The table and its selections

  /** AUTOINCREMENT keys: rows in table order have increasing ids. */
  predicate IdsAscending(rows: seq<Row>) {
    forall i, j :: 0 <= i < j < |rows| ==> rows[i].id < rows[j].id
  }

  /** Newest first: ids decrease along the sequence. */
  predicate IdsDescending(rows: seq<Row>) {
    forall i, j :: 0 <= i < j < |rows| ==> rows[i].id > rows[j].id
  }

  /** `WHERE <column> = value`, keeping table order. */
  function Where(rows: seq<Row>, col: nat, value: string): (m: seq<Row>)
    requires col < 8
    ensures |m| <= |rows|
    ensures forall k :: 0 <= k < |m| ==> m[k] in rows && m[k].values[col] == value
    decreases |rows|
  {
    if rows == [] then []
    else (if rows[0].values[col] == value then [rows[0]] else []) + Where(rows[1..], col, value)
  }

  /** Nothing matching is dropped. */
  lemma {:induction false} WhereKeepsMatches(rows: seq<Row>, col: nat, value: string, i: nat)
    requires col < 8 && i < |rows| && rows[i].values[col] == value
    ensures rows[i] in Where(rows, col, value)
    decreases |rows|
  {
    if i > 0 {
      WhereKeepsMatches(rows[1..], col, value, i - 1);
    }
  }

  /** A bound on every key of the table bounds every key of a selection. */
  lemma WhereAbove(rows: seq<Row>, col: nat, value: string, b: int)
    requires col < 8 && forall k :: 0 <= k < |rows| ==> b < rows[k].id
    ensures var m := Where(rows, col, value); forall k :: 0 <= k < |m| ==> b < m[k].id
  {
    var m := Where(rows, col, value);
    forall k | 0 <= k < |m| ensures b < m[k].id {
      var i :| 0 <= i < |rows| && rows[i] == m[k];
    }
  }

  /** The selection keeps table order. */
  lemma {:induction false} WhereAscending(rows: seq<Row>, col: nat, value: string)
    requires col < 8 && IdsAscending(rows)
    ensures IdsAscending(Where(rows, col, value))
    decreases |rows|
  {
    if rows != [] {
      var rest := Where(rows[1..], col, value);
      WhereAscending(rows[1..], col, value);
      WhereAbove(rows[1..], col, value, rows[0].id);
      if rows[0].values[col] == value {
        AscendingCons(rows[0], rest);
      }
    }
  }

  /** A row below every key of an ascending sequence may go in front of it. */
  lemma AscendingCons(x: Row, rest: seq<Row>)
    requires IdsAscending(rest) && forall k :: 0 <= k < |rest| ==> x.id < rest[k].id
    ensures IdsAscending([x] + rest)
  {
    var m := [x] + rest;
    forall i, j | 0 <= i < j < |m| ensures m[i].id < m[j].id {
      assert m[j] == rest[j - 1];
      if 0 < i {
        assert m[i] == rest[i - 1];
      }
    }
  }

  /** Selecting from a table after an append. */
  lemma {:induction false} WhereAppend(rows: seq<Row>, x: Row, col: nat, value: string)
    requires col < 8
    ensures Where(rows + [x], col, value)
         == Where(rows, col, value) + (if x.values[col] == value then [x] else [])
    decreases |rows|
  {
    if rows == [] {
      assert [x][1..] == [];
    } else {
      assert (rows + [x])[1..] == rows[1..] + [x];
      WhereAppend(rows[1..], x, col, value);
    }
  }

  /** A selection is empty exactly when no row has the value. */
  lemma {:induction false} WhereEmpty(rows: seq<Row>, col: nat, value: string)
    requires col < 8
    ensures Where(rows, col, value) == [] <==> forall k :: 0 <= k < |rows| ==> rows[k].values[col] != value
    decreases |rows|
  {
    if rows != [] {
      WhereEmpty(rows[1..], col, value);
      assert forall k :: 1 <= k < |rows| ==> rows[k] == rows[1..][k - 1];
    }
  }

  /** `ORDER BY id DESC` of a table held in key order. */
  function NewestFirst(rows: seq<Row>): (r: seq<Row>)
    ensures |r| == |rows|
    ensures forall k :: 0 <= k < |r| ==> r[k] == rows[|rows| - 1 - k]
  {
    seq(|rows|, k requires 0 <= k < |rows| => rows[|rows| - 1 - k])
  }

  function Min(a: nat, b: nat): nat {
    if a <= b then a else b
  }

  /** `OFFSET skip LIMIT n`. */
  function Window(rows: seq<Row>, skip: nat, n: nat): (w: seq<Row>)
    ensures |w| == Min(n, |rows| - Min(skip, |rows|))
    ensures forall k :: 0 <= k < |w| ==> w[k] == rows[skip + k]
  {
    var from := Min(skip, |rows|);
    rows[from..from + Min(n, |rows| - from)]
  }

  /** Decoding a selection row by row, as `query_map(.., from_sql_row)`
      collected into a Vec; a row that does not decode is the panic. */
  function DecodeAll(rows: seq<Row>): (r: Result<seq<Transaction>>)
    ensures r.Ok? <==> forall k :: 0 <= k < |rows| ==> FromSqlRow(SelectStar(rows[k])).Some?
    ensures r.Ok? ==> (|r.value| == |rows|
      && forall k :: 0 <= k < |rows| ==> FromSqlRow(SelectStar(rows[k])) == Some(r.value[k]))
    ensures r.Err? ==> r.error == ROW_PANIC
    decreases |rows|
  {
    if rows == [] then Ok([])
    else
      var head := FromSqlRow(SelectStar(rows[0]));
      var rest := DecodeAll(rows[1..]);
      assert forall k :: 1 <= k < |rows| ==> rows[k] == rows[1..][k - 1];
      if head.None? then Err(ROW_PANIC)
      else if rest.Err? then rest
      else Ok([head.value] + rest.value)
  }

  function PrependOk(done: seq<Transaction>, r: Result<seq<Transaction>>): Result<seq<Transaction>> {
    match r
    case Ok(rest) => Ok(done + rest)
    case Err(e) => Err(e)
  }

  /** One step of decoding a selection from position `i` on. */
  lemma DecodeStep(selected: seq<Row>, i: nat, done: seq<Transaction>)
    requires i < |selected| && FromSqlRow(SelectStar(selected[i])).Some?
    ensures PrependOk(done, DecodeAll(selected[i..]))
         == PrependOk(done + [FromSqlRow(SelectStar(selected[i])).value], DecodeAll(selected[i + 1..]))
  {
    assert selected[i..][1..] == selected[i + 1..];
    var rest := DecodeAll(selected[i + 1..]);
    if rest.Ok? {
      var t := FromSqlRow(SelectStar(selected[i])).value;
      assert done + ([t] + rest.value) == (done + [t]) + rest.value;
    }
  }

  lemma DecodeFrom(selected: seq<Row>)
    ensures DecodeAll(selected) == PrependOk([], DecodeAll(selected[0..]))
  {
    assert selected[0..] == selected;
    if DecodeAll(selected).Ok? {
      assert [] + DecodeAll(selected).value == DecodeAll(selected).value;
    }
  }

  lemma DecodeFails(selected: seq<Row>, i: nat)
    requires i < |selected| && FromSqlRow(SelectStar(selected[i])).None?
    ensures forall done :: PrependOk(done, DecodeAll(selected[i..])) == Err(ROW_PANIC)
  {
    assert selected[i..][0] == selected[i];
  }

  lemma DecodeDone(selected: seq<Row>, done: seq<Transaction>)
    ensures PrependOk(done, DecodeAll(selected[|selected|..])) == Ok(done)
  {
    assert selected[|selected|..] == [];
    assert done + [] == done;
  }

  /** The `for row in rows { res.push(row?) }` loop shared by the list queries. */
  method CollectTransactions(selected: seq<Row>) returns (r: Result<seq<Transaction>>)
    ensures r == DecodeAll(selected)
  {
    var res: seq<Transaction> := [];
    var i := 0;
    DecodeFrom(selected);
    while i < |selected|
      invariant 0 <= i <= |selected|
      invariant DecodeAll(selected) == PrependOk(res, DecodeAll(selected[i..]))
    {
      var t := FromSqlRow(SelectStar(selected[i]));
      if t.None? {
        DecodeFails(selected, i);
        return Err(ROW_PANIC);
      }
      DecodeStep(selected, i, res);
      res := res + [t.value];
      i := i + 1;
    }
    DecodeDone(selected, res);
    r := Ok(res);
  }


  // ---------------------------------------------------------------------------
  // Queries

  /** `get_tx_by_id`: the one row with that tx_id. The first matching row is
      decoded by `rows.next()`, the rest by `rows.count()`. */
  function GetTxById(rows: seq<Row>, txId: string): (r: Result<Transaction>)
    ensures r.Ok? <==> |Where(rows, TX_ID_COL, txId)| == 1 && DecodeAll(Where(rows, TX_ID_COL, txId)).Ok?
    ensures r.Ok? ==> (r.value.txId == txId
                   && Some(r.value) == FromSqlRow(SelectStar(Where(rows, TX_ID_COL, txId)[0])))
    ensures |Where(rows, TX_ID_COL, txId)| == 0 ==> r == Err(NO_TX)
  {
    var matching := Where(rows, TX_ID_COL, txId);
    if |matching| == 0 then Err(NO_TX)
    else match DecodeAll(matching)
      case Err(e) => Err(e)
      case Ok(ts) =>
        assert matching[0] in matching;
        if |matching| > 1 then Err(DUPLICATE_TX) else Ok(ts[0])
  }

  /** `SELECT * .. ORDER BY id DESC LIMIT 10`. */
  function LatestRows(rows: seq<Row>): (sel: seq<Row>)
    ensures |sel| == Min(PAGE_SIZE, |rows|)
    ensures forall k :: 0 <= k < |sel| ==> sel[k] == rows[|rows| - 1 - k]
  {
    Window(NewestFirst(rows), 0, PAGE_SIZE)
  }

  /** A table in key order read backwards is in descending key order. */
  lemma NewestFirstDescending(rows: seq<Row>)
    requires IdsAscending(rows)
    ensures IdsDescending(NewestFirst(rows))
  {
  }

  /** The latest query returns the (at most) ten rows with the largest keys,
      largest first: the rows it leaves out are the older prefix of the table. */
  lemma LatestRowsAreNewest(rows: seq<Row>)
    requires IdsAscending(rows)
    ensures var sel := LatestRows(rows);
      && |sel| == Min(PAGE_SIZE, |rows|)
      && (forall k :: 0 <= k < |sel| ==> sel[k] == rows[|rows| - 1 - k])
      && IdsDescending(sel)
      && (forall k, i :: 0 <= k < |sel| && 0 <= i < |rows| - |sel| ==> rows[i].id < sel[k].id)
  {
    var sel := LatestRows(rows);
    forall k | 0 <= k < |sel| ensures sel[k] == rows[|rows| - 1 - k] {
    }
  }

  /** `get_txs_latest`. */
  method GetTxsLatest(rows: seq<Row>) returns (r: Result<seq<Transaction>>)
    ensures r == DecodeAll(LatestRows(rows))
    ensures r.Ok? ==> |r.value| == Min(PAGE_SIZE, |rows|)
  {
    r := CollectTransactions(LatestRows(rows));
  }

  /** Rows skipped before page `page` (numbered from 1). */
  function PageOffset(page: nat): (offset: nat)
    requires 1 <= page
    ensures offset % PAGE_SIZE == 0 && offset / PAGE_SIZE == page - 1
  {
    (page - 1) * PAGE_SIZE
  }

  /** The offset as `(page_number - 1) * 10` computes it in u32 arithmetic,
      which wraps around in a build without overflow checks. */
  function PageOffsetAsWritten(page: U32): (offset: U32)
    requires 1 <= page
    ensures offset == PageOffset(page) % U32_LIMIT
    ensures offset == PageOffset(page) <==> PageOffset(page) < U32_LIMIT
  {
    ((page - 1) * PAGE_SIZE) % U32_LIMIT
  }

  /** Page 429496731 wraps to offset 4, so it repeats rows of page 1 instead of
      being empty. */
  lemma PageOffsetWraps()
    ensures PageOffsetAsWritten(429496731) == 4
    ensures PageOffset(429496731) == 4294967300
  {
  }

  /** The sender's rows, newest first. */
  function AccountHistory(rows: seq<Row>, account: string): seq<Row> {
    NewestFirst(Where(rows, SENDER_COL, account))
  }

  /** `SELECT * .. WHERE sender = :account_id ORDER BY id DESC LIMIT 10 OFFSET (page - 1) * 10`. */
  function AccountPageRows(rows: seq<Row>, account: string, page: nat): (sel: seq<Row>)
    requires 1 <= page
    ensures var history := AccountHistory(rows, account);
      && |sel| == Min(PAGE_SIZE, |history| - Min(PageOffset(page), |history|))
      && forall k :: 0 <= k < |sel| ==> sel[k] == history[PageOffset(page) + k]
  {
    Window(AccountHistory(rows, account), PageOffset(page), PAGE_SIZE)
  }

  /** Pages split the sender's history without loss or overlap: its k-th newest
      row is entry k % 10 of page k / 10 + 1. */
  lemma PageOfPosition(rows: seq<Row>, account: string, k: nat)
    requires k < |AccountHistory(rows, account)|
    ensures var page := AccountPageRows(rows, account, k / PAGE_SIZE + 1);
      k % PAGE_SIZE < |page| && page[k % PAGE_SIZE] == AccountHistory(rows, account)[k]
  {
    assert PageOffset(k / PAGE_SIZE + 1) + k % PAGE_SIZE == k;
  }

  /** A window of a descending sequence is descending. */
  lemma WindowDescending(r: seq<Row>, skip: nat, n: nat)
    requires IdsDescending(r)
    ensures IdsDescending(Window(r, skip, n))
  {
    var w := Window(r, skip, n);
    forall i, j | 0 <= i < j < |w| ensures w[i].id > w[j].id {
      assert w[i] == r[skip + i] && w[j] == r[skip + j];
    }
  }

  /** Every page holds only the sender's rows, at most ten, newest first, and
      the page size is fixed by the sender's row count. */
  lemma AccountPageShape(rows: seq<Row>, account: string, page: nat)
    requires IdsAscending(rows) && 1 <= page
    ensures var sel := AccountPageRows(rows, account, page);
      var count := |Where(rows, SENDER_COL, account)|;
      && |sel| == Min(PAGE_SIZE, count - Min(PageOffset(page), count))
      && (forall k :: 0 <= k < |sel| ==> sel[k] in rows && sel[k].values[SENDER_COL] == account)
      && IdsDescending(sel)
  {
    var m := Where(rows, SENDER_COL, account);
    WhereAscending(rows, SENDER_COL, account);
    NewestFirstDescending(m);
    WindowDescending(AccountHistory(rows, account), PageOffset(page), PAGE_SIZE);
    AccountPageMembers(rows, account, page);
  }

  /** Every row of a page is one of the sender's rows of the table. */
  lemma AccountPageMembers(rows: seq<Row>, account: string, page: nat)
    requires 1 <= page
    ensures var sel := AccountPageRows(rows, account, page);
      forall k :: 0 <= k < |sel| ==> sel[k] in Where(rows, SENDER_COL, account)
  {
    var m := Where(rows, SENDER_COL, account);
    var h := AccountHistory(rows, account);
    var skip := PageOffset(page);
    var sel := Window(h, skip, PAGE_SIZE);
    forall k | 0 <= k < |sel| ensures sel[k] in m {
      assert sel[k] == h[skip + k] == m[|m| - 1 - (skip + k)];
    }
  }

  /** `get_transactions_by_account`. */
  method GetTransactionsByAccount(rows: seq<Row>, account: string, page: U32) returns (r: Result<seq<Transaction>>)
    ensures page == 0 ==> r == Err(BAD_PAGE)
    ensures 1 <= page ==> r == DecodeAll(AccountPageRows(rows, account, page))
    ensures r.Ok? ==> |r.value| <= PAGE_SIZE
  {
    if page < 1 {
      return Err(BAD_PAGE);
    }
    r := CollectTransactions(AccountPageRows(rows, account, page));
  }

  /** `get_number_of_tx_for_address`: `COUNT(*)` read back as a u32. */
  function GetNumberOfTxForAddress(rows: seq<Row>, account: string): (r: Result<U32>)
    ensures r.Ok? ==> r.value == |Where(rows, SENDER_COL, account)|
    ensures r.Err? <==> U32_LIMIT <= |Where(rows, SENDER_COL, account)|
  {
    var n := |Where(rows, SENDER_COL, account)|;
    if n < U32_LIMIT then Ok(n) else Err(COUNT_RANGE)
  }

  /** The count and the pages agree: the count is the number of rows the pages
      hold, page 1 up to the last non-empty one. */
  lemma CountMatchesPages(rows: seq<Row>, account: string, page: nat)
    requires 1 <= page && GetNumberOfTxForAddress(rows, account).Ok?
    ensures var count := GetNumberOfTxForAddress(rows, account).value;
      && (PageOffset(page) < count <==> |AccountPageRows(rows, account, page)| > 0)
      && (PageOffset(page) + PAGE_SIZE <= count ==> |AccountPageRows(rows, account, page)| == PAGE_SIZE)
  {
  }
}
