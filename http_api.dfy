/** The HTTP API of `src/server.rs`: the handlers over the shared database,
    the statistics they report, the CORS origin setting and the start-up
    step that creates the schema. Each handler answers either a JSON body
    (status 200), a bare status code, or nothing at all when a row fails to
    decode: `from_sql_row` then panics inside the query and the handler's
    task dies before it answers. The request's database is passed in
    as the values its queries read. */
module HttpApi {
  import opened Wrappers
  import opened Text
  import opened TxRecord
  import opened Db
  import opened AccountIds

  const BAD_REQUEST: nat := 400
  const NOT_FOUND: nat := 404
  const INTERNAL_SERVER_ERROR: nat := 500

  /** `Result<Json<T>, StatusCode>` as a handler returns it, or `NoResponse`
      when the handler panicked and the connection is closed unanswered. */
  datatype Reply<+T> = Json(body: T) | Status(code: nat) | NoResponse

  // ---------------------------------------------------------------------------
  // add_address_if_not_there

  /** `GET /add/{address}`: an address the validator rejects is answered 400
      before the database is touched; any other is inserted or ignored.
      `validateAddress` stands for `utils::validate_address`. */
  method AddAddressIfNotThere(db: AppDb, validateAddress: string -> bool, address: string) returns (r: Reply<()>)
    modifies db`accounts
    ensures !validateAddress(address) ==> r == Status(BAD_REQUEST) && db.accounts == old(db.accounts)
    ensures validateAddress(address) ==> r == Json(()) && db.accounts == WithAccount(old(db.accounts), address)
    ensures old(db.Valid()) ==> db.Valid()
  {
    if !validateAddress(address) {
      return Status(BAD_REQUEST);
    }
    db.InsertAccount(address);
    r := Json(());
  }

  /** Adding an address twice is the same as adding it once, and no address
      is ever stored twice. */
  lemma AddAddressIdempotent(accounts: seq<string>, address: string)
    requires forall i, j :: 0 <= i < j < |accounts| ==> accounts[i] != accounts[j]
    ensures WithAccount(WithAccount(accounts, address), address) == WithAccount(accounts, address)
    ensures var a := WithAccount(accounts, address);
      forall i, j :: 0 <= i < j < |a| ==> a[i] != a[j]
  {
  }

  // ---------------------------------------------------------------------------
  // get_stats

  datatype Stats = Stats(
    totalTransactions: U32,
    transactionsInLastHour: U32,
    walletsCreated: U32,
    notesCreated: U32,
    faucetRequest: U32)

  /** `SELECT COUNT(*) .. WHERE tx_kind = kind`. */
  function KindCount(rows: seq<Row>, kind: string): nat {
    |Where(rows, TX_KIND_COL, kind)|
  }

  /** A `COUNT(*)` read with `row.get::<u32>`: a count above `u32::MAX` is a
      conversion error. */
  function CountAsU32(n: nat): (r: Option<U32>)
    ensures r.Some? <==> n < U32_LIMIT
    ensures r.Some? ==> r.value == n
  {
    if n < U32_LIMIT then Some(n) else None
  }

  /** `get_stats`: the number of ACCOUNTS rows cast to u32, the three counts
      read as u32, notes = sends + faucet requests in u32 arithmetic, and the
      last-hour figure, which depends on the clock and is passed in. Any
      failing step is answered 500. */
  function GetStats(accounts: seq<string>, rows: seq<Row>, lastHour: Result<U32>): (r: Reply<Stats>)
    ensures r.Json? <==> (&& |rows| < U32_LIMIT && KindCount(rows, FAUCET_REQUEST) < U32_LIMIT
                          && KindCount(rows, SEND) < U32_LIMIT && lastHour.Ok?)
    ensures !r.Json? ==> r == Status(INTERNAL_SERVER_ERROR)
    ensures r.Json? ==> (&& r.body.totalTransactions == |rows|
                         && r.body.faucetRequest == KindCount(rows, FAUCET_REQUEST)
                         && r.body.transactionsInLastHour == lastHour.value
                         && r.body.walletsCreated == |accounts| % U32_LIMIT)
    ensures r.Json? ==> r.body.notesCreated == (KindCount(rows, SEND) + KindCount(rows, FAUCET_REQUEST)) % U32_LIMIT
  {
    var wallets := |accounts| % U32_LIMIT;
    match (CountAsU32(|rows|), CountAsU32(KindCount(rows, FAUCET_REQUEST)), CountAsU32(KindCount(rows, SEND)))
    case (Some(total), Some(faucet), Some(sends)) =>
      if lastHour.Err? then Status(INTERNAL_SERVER_ERROR)
      else Json(Stats(total, lastHour.value, wallets, (sends + faucet) % U32_LIMIT, faucet))
    case _ => Status(INTERNAL_SERVER_ERROR)
  }

  /** Because of the CHECK on tx_kind, every row is a faucet request, a send
      or a receive. */
  lemma {:induction false} KindsPartition(rows: seq<Row>)
    requires forall k :: 0 <= k < |rows| ==> ValidKind(rows[k].values[TX_KIND_COL])
    ensures |rows| == KindCount(rows, FAUCET_REQUEST) + KindCount(rows, SEND) + KindCount(rows, RECEIVE)
    decreases |rows|
  {
    if rows != [] {
      assert forall k :: 0 <= k < |rows[1..]| ==> rows[1..][k] == rows[k + 1];
      KindsPartition(rows[1..]);
    }
  }

  /** On a table the schema allows, the statistics add up: the notes figure
      never wraps, it is the total less the receives, and the only failures
      left are a table of 2^32 rows or more and the clock query. */
  lemma StatsAddUp(accounts: seq<string>, t: TxTable, lastHour: Result<U32>)
    requires TableValid(t)
    ensures GetStats(accounts, t.rows, lastHour).Json? <==> |t.rows| < U32_LIMIT && lastHour.Ok?
    ensures var r := GetStats(accounts, t.rows, lastHour);
      r.Json? ==> (&& r.body.notesCreated == KindCount(t.rows, SEND) + KindCount(t.rows, FAUCET_REQUEST)
                   && r.body.notesCreated + KindCount(t.rows, RECEIVE) == r.body.totalTransactions
                   && r.body.faucetRequest <= r.body.notesCreated <= r.body.totalTransactions)
  {
    KindsPartition(t.rows);
  }

  // ---------------------------------------------------------------------------
  // Single-transaction and list routes

  /** `GET /transaction/{tx_id}`: a missing or duplicated id is answered 500;
      a matching row that does not decode panics the handler. */
  function GetTransactionById(rows: seq<Row>, txId: string): (r: Reply<Transaction>)
    ensures r.Json? <==> GetTxById(rows, txId).Ok?
    ensures r.Json? ==> r.body.txId == txId && r.body == GetTxById(rows, txId).value
    ensures r == NoResponse <==> GetTxById(rows, txId) == Err(ROW_PANIC)
    ensures r.Status? ==> r.code == INTERNAL_SERVER_ERROR
  {
    match GetTxById(rows, txId)
    case Ok(tx) => Json(tx)
    case Err(e) => if e == ROW_PANIC then NoResponse else Status(INTERNAL_SERVER_ERROR)
  }

  /** A lookup whose id matches no row is answered 500, and one whose id
      matches two rows that both decode is answered 500 too. */
  lemma LookupFailuresAre500(rows: seq<Row>, txId: string)
    ensures |Where(rows, TX_ID_COL, txId)| == 0 ==> GetTransactionById(rows, txId) == Status(INTERNAL_SERVER_ERROR)
    ensures |Where(rows, TX_ID_COL, txId)| > 1 && DecodeAll(Where(rows, TX_ID_COL, txId)).Ok?
      ==> GetTransactionById(rows, txId) == Status(INTERNAL_SERVER_ERROR)
  {
  }

  /** Every record the indexer stores is served by its id. */
  lemma StoredTxIsServed(t: TxTable, tx: Transaction)
    requires ValidKind(tx.txKind) && !HasTxId(t.rows, tx.txId)
    requires tx.note.None? || tx.note.value.noteId != NULL_TEXT
    ensures GetTransactionById(InsertOrIgnore(t, IntoSqlValue(tx)).rows, tx.txId) == Json(tx)
  {
    InsertThenGetById(t, tx);
  }

  /** `GET /latest-transactions`: the ten newest records, even none; a row
      that does not decode panics the handler. */
  method GetTxsLatestApi(rows: seq<Row>) returns (r: Reply<seq<Transaction>>)
    ensures r.Json? <==> DecodeAll(LatestRows(rows)).Ok?
    ensures r.Json? ==> r.body == DecodeAll(LatestRows(rows)).value && |r.body| <= PAGE_SIZE
    ensures !r.Json? ==> r == NoResponse
  {
    var q := GetTxsLatest(rows);
    match q
    case Ok(txs) =>
      r := Json(txs);
    case Err(_) =>
      r := NoResponse;
  }

  /** The answer to a list query: an empty list is 404, the decoding panic
      leaves the request unanswered, and any other failure is 500. */
  function ListReply(q: Result<seq<Transaction>>): (r: Reply<seq<Transaction>>)
    ensures r.Json? <==> q.Ok? && q.value != []
    ensures r.Json? ==> r.body == q.value
    ensures r == Status(NOT_FOUND) <==> q == Ok([])
    ensures r == NoResponse <==> q == Err(ROW_PANIC)
    ensures r == Status(INTERNAL_SERVER_ERROR) <==> q.Err? && q.error != ROW_PANIC
  {
    match q
    case Err(e) => if e == ROW_PANIC then NoResponse else Status(INTERNAL_SERVER_ERROR)
    case Ok(txs) => if txs == [] then Status(NOT_FOUND) else Json(txs)
  }

  /** `GET /transactions/{address}/{page_number}`: a text that is not bech32
      is answered 400 before the query; page 0 fails inside the query and so
      is answered 500; an empty page is answered 404. `fromBech32` stands for
      `Address::from_bech32`, which accepts any kind of address. */
  method GetTransactionsForAccount(rows: seq<Row>, fromBech32: string -> AddressParse, address: string, page: U32)
    returns (r: Reply<seq<Transaction>>)
    ensures fromBech32(address).NotBech32? ==> r == Status(BAD_REQUEST)
    ensures !fromBech32(address).NotBech32? && page == 0 ==> r == Status(INTERNAL_SERVER_ERROR)
    ensures !fromBech32(address).NotBech32? && 1 <= page ==>
      r == ListReply(DecodeAll(AccountPageRows(rows, address, page)))
  {
    if fromBech32(address).NotBech32? {
      return Status(BAD_REQUEST);
    }
    var q := GetTransactionsByAccount(rows, address, page);
    r := ListReply(q);
  }

  /** A page the handler answers holds one to ten of the sender's own
      transactions; a page past the end of the history is 404. */
  lemma AccountPageReplyShape(rows: seq<Row>, address: string, page: nat)
    requires IdsAscending(rows) && 1 <= page
    ensures var r := ListReply(DecodeAll(AccountPageRows(rows, address, page)));
      r.Json? ==> (0 < |r.body| <= PAGE_SIZE && forall k :: 0 <= k < |r.body| ==> r.body[k].sender == address)
    ensures |Where(rows, SENDER_COL, address)| <= PageOffset(page)
        ==> ListReply(DecodeAll(AccountPageRows(rows, address, page))) == Status(NOT_FOUND)
  {
    var sel := AccountPageRows(rows, address, page);
    AccountPageShape(rows, address, page);
    var q := DecodeAll(sel);
    if q.Ok? {
      forall k | 0 <= k < |q.value| ensures q.value[k].sender == address {
        assert FromSqlRow(SelectStar(sel[k])) == Some(q.value[k]);
        assert SelectStar(sel[k])[4] == sel[k].values[SENDER_COL];
      }
    }
  }

  /** `GET /transactions/{address}/count`. */
  function GetTxCountForAccount(rows: seq<Row>, fromBech32: string -> AddressParse, address: string): (r: Reply<U32>)
    ensures fromBech32(address).NotBech32? ==> r == Status(BAD_REQUEST)
    ensures !fromBech32(address).NotBech32? ==>
      (&& (r.Json? <==> |Where(rows, SENDER_COL, address)| < U32_LIMIT)
       && (r.Json? ==> r.body == |Where(rows, SENDER_COL, address)|)
       && (!r.Json? ==> r == Status(INTERNAL_SERVER_ERROR)))
  {
    if fromBech32(address).NotBech32? then Status(BAD_REQUEST)
    else match GetNumberOfTxForAddress(rows, address)
      case Ok(n) => Json(n)
      case Err(_) => Status(INTERNAL_SERVER_ERROR)
  }

  /** The count route and the page route agree: a page is served exactly
      when the count says the history reaches it. */
  lemma CountAgreesWithPages(rows: seq<Row>, fromBech32: string -> AddressParse, address: string, page: nat)
    requires IdsAscending(rows) && 1 <= page
    requires GetTxCountForAccount(rows, fromBech32, address).Json?
    requires DecodeAll(AccountPageRows(rows, address, page)).Ok?
    ensures var count := GetTxCountForAccount(rows, fromBech32, address).body;
      ListReply(DecodeAll(AccountPageRows(rows, address, page))).Json? <==> PageOffset(page) < count
  {
    CountMatchesPages(rows, address, page);
  }

  // ---------------------------------------------------------------------------
  // get_chart_data

  /** One row of the per-day query: the day's text and its `COUNT(*)`. The
      query itself (the 30-day window and the grouping by day) depends on the
      clock; its rows are passed in. */
  datatype DayCount = DayCount(day: string, count: nat)

  datatype ChartData = ChartData(totalTx: U32, date: string)

  predicate CountsFit(days: seq<DayCount>) {
    forall k :: 0 <= k < |days| ==> days[k].count < U32_LIMIT
  }

  /** The query rows converted one by one; `None` when a count does not fit
      the `u32` field. */
  function ChartRows(days: seq<DayCount>): (r: Option<seq<ChartData>>)
    ensures r.Some? <==> CountsFit(days)
    ensures r.Some? ==> (&& |r.value| == |days|
                         && forall k :: 0 <= k < |days| ==> r.value[k] == ChartData(days[k].count, days[k].day))
    decreases |days|
  {
    if days == [] then Some([])
    else if U32_LIMIT <= days[0].count then None
    else match ChartRows(days[1..])
      case None => None
      case Some(rest) => Some([ChartData(days[0].count, days[0].day)] + rest)
  }

  /** `get_chart_data`: a failed row is 500, no rows at all is 404. */
  function ChartReply(days: seq<DayCount>): (r: Reply<seq<ChartData>>)
    ensures r == Status(NOT_FOUND) <==> days == []
    ensures r == Status(INTERNAL_SERVER_ERROR) <==> !CountsFit(days)
    ensures r.Json? <==> days != [] && CountsFit(days)
    ensures r.Json? ==> 0 < |r.body| && Some(r.body) == ChartRows(days)
  {
    match ChartRows(days)
    case None => Status(INTERNAL_SERVER_ERROR)
    case Some(chart) => if chart == [] then Status(NOT_FOUND) else Json(chart)
  }

  /** The `chart_data.push(row?)` loop. */
  method GetChartData(days: seq<DayCount>) returns (r: Reply<seq<ChartData>>)
    ensures r == ChartReply(days)
  {
    var chart: seq<ChartData> := [];
    var i := 0;
    while i < |days|
      invariant 0 <= i <= |days|
      invariant CountsFit(days[..i])
      invariant |chart| == i
      invariant forall k :: 0 <= k < i ==> chart[k] == ChartData(days[k].count, days[k].day)
    {
      if U32_LIMIT <= days[i].count {
        return Status(INTERNAL_SERVER_ERROR);
      }
      chart := chart + [ChartData(days[i].count, days[i].day)];
      i := i + 1;
    }
    assert days[..i] == days;
    assert CountsFit(days);
    assert ChartRows(days).value == chart;
    if chart == [] {
      return Status(NOT_FOUND);
    }
    r := Json(chart);
  }

  // ---------------------------------------------------------------------------
  // start_server: CORS origins and schema

  /** The origin rule of the CORS layer. */
  datatype AllowOrigin = AnyOrigin | Origins(list: seq<string>)

  /** The value `CORS_ALLOWED_ORIGINS` takes when it is not set. */
  const ANY_ORIGIN_SETTING: string := "*"
  const INVALID_ORIGIN: string := "panic: Invalid origin URL"

  /** Peeling off the first part of a non-empty list. */
  lemma OriginsStep(parts: seq<string>, isValidOrigin: string -> bool)
    requires parts != []
    ensures forall k :: 1 <= k < |parts| ==> parts[k] == parts[1..][k - 1]
    ensures (forall k :: 0 <= k < |parts| ==> isValidOrigin(Trim(parts[k])))
        <==> isValidOrigin(Trim(parts[0])) && forall k :: 0 <= k < |parts[1..]| ==> isValidOrigin(Trim(parts[1..][k]))
  {
  }

  /** Each comma-separated part, trimmed, must parse as a header value
      (`isValidOrigin`); the first that does not is the panic. */
  function ParseOrigins(parts: seq<string>, isValidOrigin: string -> bool): (r: Result<seq<string>>)
    ensures r.Ok? <==> forall k :: 0 <= k < |parts| ==> isValidOrigin(Trim(parts[k]))
    ensures r.Ok? ==> (&& |r.value| == |parts|
                       && forall k :: 0 <= k < |parts| ==> r.value[k] == Trim(parts[k]))
    ensures r.Err? ==> r.error == INVALID_ORIGIN
    decreases |parts|
  {
    if parts == [] then Ok([])
    else
      var origin := Trim(parts[0]);
      var rest := ParseOrigins(parts[1..], isValidOrigin);
      OriginsStep(parts, isValidOrigin);
      if !isValidOrigin(origin) then Err(INVALID_ORIGIN)
      else if rest.Err? then rest
      else Ok([origin] + rest.value)
  }

  /** The CORS rule `start_server` builds from `CORS_ALLOWED_ORIGINS`. */
  function CorsOrigins(setting: Option<string>, isValidOrigin: string -> bool): (r: Result<AllowOrigin>)
    ensures setting.None? ==> r == Ok(AnyOrigin)
    ensures r == Ok(AnyOrigin) <==> setting.GetOr(ANY_ORIGIN_SETTING) == ANY_ORIGIN_SETTING
    ensures r.Ok? && r.value.Origins? ==> |r.value.list| == |Split(setting.value, ',')|
  {
    var value := setting.GetOr(ANY_ORIGIN_SETTING);
    if value == ANY_ORIGIN_SETTING then Ok(AnyOrigin)
    else match ParseOrigins(Split(value, ','), isValidOrigin)
      case Err(e) => Err(e)
      case Ok(list) => Ok(Origins(list))
  }

  /** A list of valid origins written with commas (and any spaces around
      them) is read back as exactly that list. */
  lemma CorsListRoundTrip(origins: seq<string>, isValidOrigin: string -> bool)
    requires 0 < |origins| && Join(origins, ',') != ANY_ORIGIN_SETTING
    requires forall k :: 0 <= k < |origins| ==> ',' !in origins[k] && isValidOrigin(origins[k])
    requires forall k :: 0 <= k < |origins| ==>
      |origins[k]| > 0 ==> !IsWhitespace(origins[k][0]) && !IsWhitespace(origins[k][|origins[k]| - 1])
    ensures CorsOrigins(Some(Join(origins, ',')), isValidOrigin) == Ok(Origins(origins))
  {
    SplitJoin(origins, ',');
    forall k | 0 <= k < |origins| ensures Trim(origins[k]) == origins[k] {
      TrimNoop(origins[k]);
    }
    var r := ParseOrigins(origins, isValidOrigin);
    assert r.Ok?;
    assert r.value == origins;
  }

  /** The start-up steps of `start_server` before it listens: the CORS rule
      is built first (a bad origin panics before anything else happens), then
      the tables are created if the database file is absent. */
  method StartServer(db: AppDb, setting: Option<string>, isValidOrigin: string -> bool) returns (r: Result<AllowOrigin>)
    modifies db
    ensures r == CorsOrigins(setting, isValidOrigin)
    ensures r.Err? ==> (&& db.fileExists == old(db.fileExists)
                        && db.accounts == old(db.accounts) && db.txs == old(db.txs))
    ensures r.Ok? ==> db.fileExists
    ensures r.Ok? && !old(db.fileExists) ==> db.accounts == [] && db.txs == EMPTY_TX_TABLE
    ensures old(db.fileExists) ==> db.accounts == old(db.accounts) && db.txs == old(db.txs)
    ensures old(db.Valid()) ==> db.Valid()
  {
    r := CorsOrigins(setting, isValidOrigin);
    if r.Err? {
      return;
    }
    db.CreateTablesIfAbsent();
  }
}
