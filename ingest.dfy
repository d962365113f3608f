/** The indexing logic shared by the chain indexer (src/bin/tx_worker.rs) and
    the re-index job (src/reset_metrics.rs): which accounts are tracked, how a
    chain transaction is classified and stored (`update_db_raw_block`), and
    the scan over a range of block numbers that both run. The two programs
    carry identical copies of this code except for the address interface used
    to print the sender, which is a parameter here. */
module Ingest {
  import opened Wrappers
  import opened Text
  import opened TxRecord
  import opened Db
  import opened AccountIds

  // ---------------------------------------------------------------------------
  // The chain, as the node's RPC service presents it

  /** A transaction of a proven block: its id (hex), the account it updates
      and the ids of its output and input notes. */
  datatype ChainTx = ChainTx(id: string, account: AccountId, outputNotes: seq<string>, inputNotes: seq<string>)

  datatype Block = Block(num: U32, timestamp: U32, updatedAccounts: seq<AccountId>, txs: seq<ChainTx>)

  /** `FetchedNote`: a public note with its metadata, or a private note of
      which only the id and the aux field are known. */
  datatype FetchedNote =
    | PublicNote(id: string, noteType: string, aux: string)
    | PrivateNote(id: string, aux: string)

  /** The node, the configured faucet and the address library:
      `blockByNumber(i)` is `get_block_by_number(i)` (`None`: the call failed);
      `noteById(n)` is `get_note_by_id(n)` (`None`: the call failed);
      `toBech32(a, i)` prints account `a` as a testnet address with interface `i`. */
  datatype Ledger = Ledger(
    faucet: AccountId,
    blockByNumber: nat -> Option<Block>,
    noteById: string -> Option<FetchedNote>,
    fromBech32: string -> AddressParse,
    legacy: LegacyCodec,
    toBech32: (AccountId, AddressInterface) -> string)

  const UNKNOWN_KIND: string := "Unknown tx kind"
  const NOT_ACCOUNT_ID: string := "panic: Address is not an AccountId"
  const BAD_LEGACY_ID: string := "panic: Unable to parse legacy account id"

  // ---------------------------------------------------------------------------
  // Tracked accounts

  /** The account a stored wallet address denotes: a bech32 account-id
      address gives its id, a bech32 address of another kind is a panic, and
      text that is not bech32 goes to the legacy decoder, whose failure is a
      panic. */
  function WalletAccount(ledger: Ledger, wallet: string): (r: Result<AccountId>)
    ensures ledger.fromBech32(wallet).AccountIdAddress? ==> r == Ok(ledger.fromBech32(wallet).id)
    ensures ledger.fromBech32(wallet).OtherAddress? ==> r == Err(NOT_ACCOUNT_ID)
    ensures ledger.fromBech32(wallet).NotBech32? ==>
      (r.Ok? <==> LegacyAccountId(ledger.legacy, wallet).Ok?) &&
      (r.Ok? ==> r.value == LegacyAccountId(ledger.legacy, wallet).value)
  {
    match ledger.fromBech32(wallet)
    case AccountIdAddress(id) => Ok(id)
    case OtherAddress => Err(NOT_ACCOUNT_ID)
    case NotBech32 =>
      match LegacyAccountId(ledger.legacy, wallet)
      case Ok(id) => Ok(id)
      case Err(_) => Err(BAD_LEGACY_ID)
  }

  /** The accounts the stored wallets denote, or the first wallet's panic. */
  function WalletAccounts(ledger: Ledger, wallets: seq<string>): (r: Result<set<AccountId>>)
    ensures r.Ok? <==> forall k :: 0 <= k < |wallets| ==> WalletAccount(ledger, wallets[k]).Ok?
    ensures r.Ok? ==> forall k :: 0 <= k < |wallets| ==> WalletAccount(ledger, wallets[k]).value in r.value
    ensures r.Ok? ==> forall a :: a in r.value ==>
      exists k :: 0 <= k < |wallets| && WalletAccount(ledger, wallets[k]) == Ok(a)
    decreases |wallets|
  {
    if wallets == [] then Ok({})
    else match WalletAccount(ledger, wallets[0])
      case Err(e) => Err(e)
      case Ok(a) =>
        match WalletAccounts(ledger, wallets[1..])
        case Err(e) => Err(e)
        case Ok(rest) =>
          assert forall k :: 1 <= k < |wallets| ==> wallets[k] == wallets[1..][k - 1];
          Ok({a} + rest)
  }

  /** `get_accounts_to_be_tracked`: the stored wallets' accounts and the faucet. */
  function TrackedAccounts(ledger: Ledger, wallets: seq<string>): (r: Result<set<AccountId>>)
    ensures r.Ok? ==> ledger.faucet in r.value
    ensures r.Ok? <==> WalletAccounts(ledger, wallets).Ok?
  {
    match WalletAccounts(ledger, wallets)
    case Err(e) => Err(e)
    case Ok(ids) => Ok(ids + {ledger.faucet})
  }

  /** The accounts of the wallets not yet inserted, added to those collected so far. */
  function AddAccounts(done: set<AccountId>, r: Result<set<AccountId>>): Result<set<AccountId>> {
    match r
    case Ok(rest) => Ok(done + rest)
    case Err(e) => Err(e)
  }

  /** One step of collecting the accounts of the wallets from position `i` on. */
  lemma WalletStep(ledger: Ledger, wallets: seq<string>, i: nat, done: set<AccountId>)
    requires i < |wallets|
    ensures WalletAccount(ledger, wallets[i]).Err? ==>
      AddAccounts(done, WalletAccounts(ledger, wallets[i..])) == Err(WalletAccount(ledger, wallets[i]).error)
    ensures WalletAccount(ledger, wallets[i]).Ok? ==>
      AddAccounts(done, WalletAccounts(ledger, wallets[i..]))
      == AddAccounts(done + {WalletAccount(ledger, wallets[i]).value}, WalletAccounts(ledger, wallets[i + 1..]))
  {
    assert wallets[i..][0] == wallets[i] && wallets[i..][1..] == wallets[i + 1..];
    var rest := WalletAccounts(ledger, wallets[i + 1..]);
    if WalletAccount(ledger, wallets[i]).Ok? && rest.Ok? {
      var a := WalletAccount(ledger, wallets[i]).value;
      assert done + ({a} + rest.value) == (done + {a}) + rest.value;
    }
  }

  /** `get_accounts_to_be_tracked` with its insert loop over the ACCOUNTS rows. */
  method GetAccountsToBeTracked(db: AppDb, ledger: Ledger) returns (r: Result<set<AccountId>>)
    ensures r == TrackedAccounts(ledger, db.accounts)
  {
    var wallets := db.accounts;
    var accounts: set<AccountId> := {};
    var i := 0;
    assert wallets[0..] == wallets;
    assert AddAccounts(accounts, WalletAccounts(ledger, wallets)) == WalletAccounts(ledger, wallets) by {
      if WalletAccounts(ledger, wallets).Ok? {
        assert accounts + WalletAccounts(ledger, wallets).value == WalletAccounts(ledger, wallets).value;
      }
    }
    while i < |wallets|
      invariant 0 <= i <= |wallets|
      invariant WalletAccounts(ledger, wallets) == AddAccounts(accounts, WalletAccounts(ledger, wallets[i..]))
    {
      WalletStep(ledger, wallets, i, accounts);
      var account := WalletAccount(ledger, wallets[i]);
      if account.Err? {
        return Err(account.error);
      }
      accounts := accounts + {account.value};
      i := i + 1;
    }
    assert wallets[i..] == [];
    accounts := accounts + {ledger.faucet};
    r := Ok(accounts);
  }

  // ---------------------------------------------------------------------------
  // Classification of one transaction

  datatype Classified = Classified(kind: string, note: Option<NoteData>) | UnknownKind

  /** The note columns of a `send`: the fetched note's id, type and aux; a
      private note has type "private"; a failed fetch leaves them empty. */
  function NoteDataOf(fetched: Option<FetchedNote>): (r: Option<NoteData>)
    ensures r.None? <==> fetched.None?
  {
    match fetched
    case None => None
    case Some(PublicNote(id, noteType, aux)) => Some(NoteData(id, noteType, aux))
    case Some(PrivateNote(id, aux)) => Some(NoteData(id, "private", aux))
  }

  /** A transaction has a kind unless it is not the faucet's and has neither
      output nor input notes. */
  predicate Classifiable(ledger: Ledger, tx: ChainTx) {
    tx.account == ledger.faucet || |tx.outputNotes| > 0 || |tx.inputNotes| > 0
  }

  /** The kind of a transaction, tested in the order faucet, send, receive;
      only a `send` fetches a note, the first of its outputs. */
  function Classify(ledger: Ledger, tx: ChainTx): (c: Classified)
    ensures c.Classified? <==> Classifiable(ledger, tx)
    ensures c.Classified? ==> ValidKind(c.kind)
    ensures c.Classified? ==> (c.kind == FAUCET_REQUEST <==> tx.account == ledger.faucet)
    ensures c.Classified? && c.kind != SEND ==> c.note.None?
    ensures c.Classified? && c.kind == SEND ==> |tx.outputNotes| > 0 && c.note == NoteDataOf(ledger.noteById(tx.outputNotes[0]))
  {
    if tx.account == ledger.faucet then Classified(FAUCET_REQUEST, None)
    else if |tx.outputNotes| > 0 then Classified(SEND, NoteDataOf(ledger.noteById(tx.outputNotes[0])))
    else if |tx.inputNotes| > 0 then Classified(RECEIVE, None)
    else UnknownKind
  }

  /** The record stored for a classified transaction of `block`. */
  function RecordFor(ledger: Ledger, iface: AddressInterface, block: Block, tx: ChainTx, kind: string, note: Option<NoteData>): (t: Transaction)
    ensures t.txId == tx.id && t.txKind == kind && t.note == note
    ensures t.sender == ledger.toBech32(tx.account, iface)
    ensures t.blockNum == block.num && t.timestamp == block.timestamp
  {
    Transaction(tx.id, kind, ledger.toBech32(tx.account, iface), block.num, note, block.timestamp)
  }

  // ---------------------------------------------------------------------------
  // One block: `update_db_raw_block`

  /** The table after a block's transactions, and whether all of them could be
      handled (`false`: "Unknown tx kind" stopped the block part-way). */
  datatype Applied = Applied(table: TxTable, ok: bool)

  predicate AllClassifiable(ledger: Ledger, tracked: set<AccountId>, txs: seq<ChainTx>) {
    forall k :: 0 <= k < |txs| && txs[k].account in tracked ==> Classifiable(ledger, txs[k])
  }

  /** The transactions of a block from one position on, applied in order: an
      untracked sender is skipped, a tracked one is classified and inserted or
      ignored, and the first unclassifiable one stops the block with the
      inserts before it kept. */
  function ApplyTxs(t: TxTable, txs: seq<ChainTx>, tracked: set<AccountId>, ledger: Ledger, iface: AddressInterface, block: Block): (r: Applied)
    ensures r.ok <==> AllClassifiable(ledger, tracked, txs)
    ensures Extends(t, r.table)
    decreases |txs|
  {
    if txs == [] then Applied(t, true)
    else
      assert forall k :: 1 <= k < |txs| ==> txs[k] == txs[1..][k - 1];
      if txs[0].account !in tracked then ApplyTxs(t, txs[1..], tracked, ledger, iface, block)
      else match Classify(ledger, txs[0])
        case UnknownKind => Applied(t, false)
        case Classified(kind, note) =>
          var t1 := InsertOrIgnore(t, IntoSqlValue(RecordFor(ledger, iface, block, txs[0], kind, note)));
          InsertOrIgnoreExtends(t, IntoSqlValue(RecordFor(ledger, iface, block, txs[0], kind, note)));
          var r := ApplyTxs(t1, txs[1..], tracked, ledger, iface, block);
          ExtendsTransitive(t, t1, r.table);
          r
  }

  /** Inserting keeps the schema's guarantees. */
  lemma {:induction false} ApplyTxsValid(t: TxTable, txs: seq<ChainTx>, tracked: set<AccountId>, ledger: Ledger, iface: AddressInterface, block: Block)
    requires TableValid(t)
    ensures TableValid(ApplyTxs(t, txs, tracked, ledger, iface, block).table)
    decreases |txs|
  {
    if txs != [] {
      if txs[0].account !in tracked {
        ApplyTxsValid(t, txs[1..], tracked, ledger, iface, block);
      } else if Classify(ledger, txs[0]).Classified? {
        var c := Classify(ledger, txs[0]);
        var v := IntoSqlValue(RecordFor(ledger, iface, block, txs[0], c.kind, c.note));
        InsertOrIgnoreValid(t, v);
        ApplyTxsValid(InsertOrIgnore(t, v), txs[1..], tracked, ledger, iface, block);
      }
    }
  }

  /** Transactions of untracked senders produce no row. */
  lemma {:induction false} UntrackedTxsIgnored(t: TxTable, txs: seq<ChainTx>, tracked: set<AccountId>, ledger: Ledger, iface: AddressInterface, block: Block)
    requires forall k :: 0 <= k < |txs| ==> txs[k].account !in tracked
    ensures ApplyTxs(t, txs, tracked, ledger, iface, block) == Applied(t, true)
    decreases |txs|
  {
    if txs != [] {
      assert forall k :: 1 <= k < |txs| ==> txs[1..][k - 1] == txs[k];
      UntrackedTxsIgnored(t, txs[1..], tracked, ledger, iface, block);
    }
  }

  /** Every tracked transaction before the stopping point has its tx_id in the
      table: already there before, or inserted now. This is the state in which
      handling the block again changes nothing. */
  predicate Settled(t: TxTable, txs: seq<ChainTx>, tracked: set<AccountId>, ledger: Ledger)
    decreases |txs|
  {
    txs == []
    || (txs[0].account !in tracked && Settled(t, txs[1..], tracked, ledger))
    || (txs[0].account in tracked && !Classifiable(ledger, txs[0]))
    || (txs[0].account in tracked && HasTxId(t.rows, txs[0].id) && Settled(t, txs[1..], tracked, ledger))
  }

  lemma {:induction false} SettledExtends(t: TxTable, t': TxTable, txs: seq<ChainTx>, tracked: set<AccountId>, ledger: Ledger)
    requires Extends(t, t') && Settled(t, txs, tracked, ledger)
    ensures Settled(t', txs, tracked, ledger)
    decreases |txs|
  {
    if txs != [] {
      if txs[0].account !in tracked {
        SettledExtends(t, t', txs[1..], tracked, ledger);
      } else if Classifiable(ledger, txs[0]) {
        HasTxIdExtends(t, t', txs[0].id);
        SettledExtends(t, t', txs[1..], tracked, ledger);
      }
    }
  }

  /** Handling a block leaves it settled. */
  lemma {:induction false} ApplyTxsSettles(t: TxTable, txs: seq<ChainTx>, tracked: set<AccountId>, ledger: Ledger, iface: AddressInterface, block: Block)
    ensures Settled(ApplyTxs(t, txs, tracked, ledger, iface, block).table, txs, tracked, ledger)
    decreases |txs|
  {
    if txs != [] {
      var r := ApplyTxs(t, txs, tracked, ledger, iface, block);
      if txs[0].account !in tracked {
        ApplyTxsSettles(t, txs[1..], tracked, ledger, iface, block);
      } else if Classifiable(ledger, txs[0]) {
        var c := Classify(ledger, txs[0]);
        var v := IntoSqlValue(RecordFor(ledger, iface, block, txs[0], c.kind, c.note));
        var t1 := InsertOrIgnore(t, v);
        InsertOrIgnoreStores(t, v);
        ApplyTxsSettles(t1, txs[1..], tracked, ledger, iface, block);
        HasTxIdExtends(t1, r.table, txs[0].id);
      }
    }
  }

  /** Handling a settled block again changes nothing. */
  lemma {:induction false} SettledNoop(t: TxTable, txs: seq<ChainTx>, tracked: set<AccountId>, ledger: Ledger, iface: AddressInterface, block: Block)
    requires Settled(t, txs, tracked, ledger)
    ensures ApplyTxs(t, txs, tracked, ledger, iface, block).table == t
    decreases |txs|
  {
    if txs != [] {
      if txs[0].account !in tracked {
        SettledNoop(t, txs[1..], tracked, ledger, iface, block);
      } else if Classifiable(ledger, txs[0]) {
        SettledNoop(t, txs[1..], tracked, ledger, iface, block);
      }
    }
  }

  /** INSERT OR IGNORE keyed on tx_id makes a block's handling idempotent:
      doing it twice gives the table doing it once gives. */
  lemma ApplyTxsIdempotent(t: TxTable, txs: seq<ChainTx>, tracked: set<AccountId>, ledger: Ledger, iface: AddressInterface, block: Block)
    ensures var once := ApplyTxs(t, txs, tracked, ledger, iface, block);
      ApplyTxs(once.table, txs, tracked, ledger, iface, block) == once
  {
    var once := ApplyTxs(t, txs, tracked, ledger, iface, block);
    ApplyTxsSettles(t, txs, tracked, ledger, iface, block);
    SettledNoop(once.table, txs, tracked, ledger, iface, block);
  }

  /** After a block handled without error, every transaction of a tracked
      sender has its row. */
  lemma ApplyTxsStoresTracked(t: TxTable, txs: seq<ChainTx>, tracked: set<AccountId>, ledger: Ledger, iface: AddressInterface, block: Block, k: nat)
    requires k < |txs| && txs[k].account in tracked
    requires ApplyTxs(t, txs, tracked, ledger, iface, block).ok
    ensures HasTxId(ApplyTxs(t, txs, tracked, ledger, iface, block).table.rows, txs[k].id)
  {
    ApplyTxsSettles(t, txs, tracked, ledger, iface, block);
    SettledHas(ApplyTxs(t, txs, tracked, ledger, iface, block).table, txs, tracked, ledger, k);
  }

  lemma {:induction false} SettledHas(t: TxTable, txs: seq<ChainTx>, tracked: set<AccountId>, ledger: Ledger, k: nat)
    requires Settled(t, txs, tracked, ledger) && AllClassifiable(ledger, tracked, txs)
    requires k < |txs| && txs[k].account in tracked
    ensures HasTxId(t.rows, txs[k].id)
    decreases |txs|
  {
    if k > 0 {
      assert forall j :: 1 <= j < |txs| ==> txs[1..][j - 1] == txs[j];
      SettledHas(t, txs[1..], tracked, ledger, k - 1);
    }
  }

  /** `update_db_raw_block`: the per-transaction loop with its inserts. */
  method UpdateDbRawBlock(db: AppDb, ledger: Ledger, tracked: set<AccountId>, block: Block, iface: AddressInterface) returns (r: Result<()>)
    modifies db`txs
    ensures Applied(db.txs, r.Ok?) == ApplyTxs(old(db.txs), block.txs, tracked, ledger, iface, block)
    ensures r.Err? ==> r.error == UNKNOWN_KIND
  {
    var txs := block.txs;
    var i := 0;
    assert txs[0..] == txs;
    while i < |txs|
      invariant 0 <= i <= |txs|
      invariant ApplyTxs(old(db.txs), txs, tracked, ledger, iface, block)
             == ApplyTxs(db.txs, txs[i..], tracked, ledger, iface, block)
    {
      var tx := txs[i];
      assert txs[i..][0] == tx && txs[i..][1..] == txs[i + 1..];
      if tx.account !in tracked {
        i := i + 1;
        continue;
      }
      var c := Classify(ledger, tx);
      if c.UnknownKind? {
        return Err(UNKNOWN_KIND);
      }
      db.InsertTx(IntoSqlValue(RecordFor(ledger, iface, block, tx, c.kind, c.note)));
      i := i + 1;
    }
    r := Ok(());
  }

  // ---------------------------------------------------------------------------
  // A range of blocks

  /** Some account the block updated is tracked (`!tracked.is_disjoint(&updated)`). */
  predicate Touches(block: Block, tracked: set<AccountId>) {
    exists k :: 0 <= k < |block.updatedAccounts| && block.updatedAccounts[k] in tracked
  }

  /** `Touches` is `!tracked.is_disjoint(&updated)` over the set of updated accounts. */
  lemma TouchesNotDisjoint(block: Block, tracked: set<AccountId>)
    ensures Touches(block, tracked) <==> tracked * (set a | a in block.updatedAccounts) != {}
  {
    var updated := set a | a in block.updatedAccounts;
    if Touches(block, tracked) {
      var k :| 0 <= k < |block.updatedAccounts| && block.updatedAccounts[k] in tracked;
      assert block.updatedAccounts[k] in tracked * updated;
    }
    if tracked * updated != {} {
      var a :| a in tracked * updated;
      var k :| 0 <= k < |block.updatedAccounts| && block.updatedAccounts[k] == a;
    }
  }

  /** How a scan ended: it reached the end of its range, or the fetch of a
      block panicked, or `update_db_raw_block` failed on a block. */
  datatype Stop = Completed | FetchPanicked(at: nat) | UnknownKindAt(at: nat)

  /** The table after a scan, the last block number written to the cursor file
      (`i + 1` after each handled block), and how it ended. */
  datatype ScanEnd = ScanEnd(table: TxTable, lastWrite: Option<nat>, stop: Stop)

  /** The block loop of both programs over `from <= i < end`, in increasing
      order: a block whose fetch fails panics, a block touching no tracked
      account is passed over without a cursor write, any other block is
      handled and then its successor is written as the cursor. */
  function Scan(t: TxTable, from: nat, end: nat, tracked: set<AccountId>, ledger: Ledger, iface: AddressInterface, lastWrite: Option<nat>): (r: ScanEnd)
    ensures Extends(t, r.table)
    ensures r.lastWrite == lastWrite || (r.lastWrite.Some? && from < r.lastWrite.value <= end)
    ensures !r.stop.Completed? ==> from <= r.stop.at < end
    ensures !r.stop.Completed? && r.lastWrite != lastWrite ==> r.lastWrite.value <= r.stop.at
    decreases end - from
  {
    if end <= from then ScanEnd(t, lastWrite, Completed)
    else match ledger.blockByNumber(from)
      case None => ScanEnd(t, lastWrite, FetchPanicked(from))
      case Some(b) =>
        if !Touches(b, tracked) then Scan(t, from + 1, end, tracked, ledger, iface, lastWrite)
        else
          var a := ApplyTxs(t, b.txs, tracked, ledger, iface, b);
          if !a.ok then ScanEnd(a.table, lastWrite, UnknownKindAt(from))
          else
            var r := Scan(a.table, from + 1, end, tracked, ledger, iface, Some(from + 1));
            ExtendsTransitive(t, a.table, r.table);
            r
  }

  /** How far a scan got: every block before this one was dealt with. */
  function Frontier(r: ScanEnd, end: nat): nat {
    if r.stop.Completed? then end else r.stop.at
  }

  /** Block `j` needs nothing more: it was fetched, and it touches no tracked
      account or is handled without error and has all its rows. */
  predicate BlockSettled(t: TxTable, j: nat, tracked: set<AccountId>, ledger: Ledger) {
    match ledger.blockByNumber(j)
    case None => false
    case Some(b) => !Touches(b, tracked) || (AllClassifiable(ledger, tracked, b.txs) && Settled(t, b.txs, tracked, ledger))
  }

  lemma BlockSettledExtends(t: TxTable, t': TxTable, j: nat, tracked: set<AccountId>, ledger: Ledger)
    requires Extends(t, t') && BlockSettled(t, j, tracked, ledger)
    ensures BlockSettled(t', j, tracked, ledger)
  {
    var b := ledger.blockByNumber(j).value;
    if Touches(b, tracked) {
      SettledExtends(t, t', b.txs, tracked, ledger);
    }
  }

  /** Scanning keeps the schema's guarantees. */
  lemma {:induction false} ScanValid(t: TxTable, from: nat, end: nat, tracked: set<AccountId>, ledger: Ledger, iface: AddressInterface, lastWrite: Option<nat>)
    requires TableValid(t)
    ensures TableValid(Scan(t, from, end, tracked, ledger, iface, lastWrite).table)
    decreases end - from
  {
    if from < end && ledger.blockByNumber(from).Some? {
      var b := ledger.blockByNumber(from).value;
      if !Touches(b, tracked) {
        ScanValid(t, from + 1, end, tracked, ledger, iface, lastWrite);
      } else {
        ApplyTxsValid(t, b.txs, tracked, ledger, iface, b);
        var a := ApplyTxs(t, b.txs, tracked, ledger, iface, b);
        if a.ok {
          ScanValid(a.table, from + 1, end, tracked, ledger, iface, Some(from + 1));
        }
      }
    }
  }

  /** Every block a scan got past is settled in the table it leaves. */
  lemma {:induction false} ScanSettlesPrefix(t: TxTable, from: nat, end: nat, tracked: set<AccountId>, ledger: Ledger, iface: AddressInterface, lastWrite: Option<nat>)
    ensures forall j :: from <= j < Frontier(Scan(t, from, end, tracked, ledger, iface, lastWrite), end) ==>
      BlockSettled(Scan(t, from, end, tracked, ledger, iface, lastWrite).table, j, tracked, ledger)
    decreases end - from
  {
    var r := Scan(t, from, end, tracked, ledger, iface, lastWrite);
    if from < end && ledger.blockByNumber(from).Some? {
      var b := ledger.blockByNumber(from).value;
      if !Touches(b, tracked) {
        assert r == Scan(t, from + 1, end, tracked, ledger, iface, lastWrite);
        ScanSettlesPrefix(t, from + 1, end, tracked, ledger, iface, lastWrite);
        forall j | from <= j < Frontier(r, end) ensures BlockSettled(r.table, j, tracked, ledger) {
          if j == from {
            assert !Touches(ledger.blockByNumber(j).value, tracked);
          }
        }
      } else {
        var a := ApplyTxs(t, b.txs, tracked, ledger, iface, b);
        if a.ok {
          assert r == Scan(a.table, from + 1, end, tracked, ledger, iface, Some(from + 1));
          ScanSettlesPrefix(a.table, from + 1, end, tracked, ledger, iface, Some(from + 1));
          ApplyTxsSettles(t, b.txs, tracked, ledger, iface, b);
          assert BlockSettled(a.table, from, tracked, ledger);
          BlockSettledExtends(a.table, r.table, from, tracked, ledger);
          forall j | from <= j < Frontier(r, end) ensures BlockSettled(r.table, j, tracked, ledger) {
          }
        } else {
          assert Frontier(r, end) == from;
        }
      }
    }
  }

  /** The cursor a scan writes never passes a block it has not dealt with:
      every block below the written cursor is settled. */
  lemma CursorBehindFrontier(t: TxTable, from: nat, end: nat, tracked: set<AccountId>, ledger: Ledger, iface: AddressInterface)
    ensures var r := Scan(t, from, end, tracked, ledger, iface, None);
      r.lastWrite.Some? ==> (r.lastWrite.value <= Frontier(r, end)
        && forall j :: from <= j < r.lastWrite.value ==> BlockSettled(r.table, j, tracked, ledger))
  {
    ScanSettlesPrefix(t, from, end, tracked, ledger, iface, None);
  }

  /** Scanning blocks that are all settled changes nothing and completes. */
  lemma {:induction false} ScanSettledNoop(t: TxTable, from: nat, end: nat, tracked: set<AccountId>, ledger: Ledger, iface: AddressInterface, lastWrite: Option<nat>)
    requires forall j :: from <= j < end ==> BlockSettled(t, j, tracked, ledger)
    ensures var r := Scan(t, from, end, tracked, ledger, iface, lastWrite);
      r.table == t && r.stop == Completed
    decreases end - from
  {
    if from < end {
      assert BlockSettled(t, from, tracked, ledger);
      var b := ledger.blockByNumber(from).value;
      if !Touches(b, tracked) {
        ScanSettledNoop(t, from + 1, end, tracked, ledger, iface, lastWrite);
      } else {
        SettledNoop(t, b.txs, tracked, ledger, iface, b);
        ScanSettledNoop(t, from + 1, end, tracked, ledger, iface, Some(from + 1));
      }
    }
  }

  /** After a completed scan, scanning any part of its range again (with the
      same tracked accounts) adds no row. */
  lemma RescanIsHarmless(t: TxTable, from: nat, end: nat, tracked: set<AccountId>, ledger: Ledger, iface: AddressInterface,
                         from': nat, end': nat, lastWrite: Option<nat>)
    requires Scan(t, from, end, tracked, ledger, iface, None).stop == Completed
    requires from <= from' && end' <= end
    ensures var t1 := Scan(t, from, end, tracked, ledger, iface, None).table;
      var r := Scan(t1, from', end', tracked, ledger, iface, lastWrite);
      r.table == t1 && r.stop == Completed
  {
    var t1 := Scan(t, from, end, tracked, ledger, iface, None).table;
    ScanSettlesPrefix(t, from, end, tracked, ledger, iface, None);
    ScanSettledNoop(t1, from', end', tracked, ledger, iface, lastWrite);
  }

  /** After a completed scan every transaction of a tracked sender in a block
      of the range that touches a tracked account has its row. */
  lemma ScanStoresTracked(t: TxTable, from: nat, end: nat, tracked: set<AccountId>, ledger: Ledger, iface: AddressInterface,
                          j: nat, k: nat)
    requires Scan(t, from, end, tracked, ledger, iface, None).stop == Completed
    requires from <= j < end && ledger.blockByNumber(j).Some?
    requires var b := ledger.blockByNumber(j).value;
      Touches(b, tracked) && k < |b.txs| && b.txs[k].account in tracked
    ensures HasTxId(Scan(t, from, end, tracked, ledger, iface, None).table.rows, ledger.blockByNumber(j).value.txs[k].id)
  {
    var r := Scan(t, from, end, tracked, ledger, iface, None);
    ScanSettlesPrefix(t, from, end, tracked, ledger, iface, None);
    assert BlockSettled(r.table, j, tracked, ledger);
    var b := ledger.blockByNumber(j).value;
    SettledHas(r.table, b.txs, tracked, ledger, k);
  }

  /** The block a scan fails on with "Unknown tx kind" touches a tracked
      account and holds an unclassifiable transaction of one. */
  lemma {:induction false} ScanStopsAtBadBlock(t: TxTable, from: nat, end: nat, tracked: set<AccountId>, ledger: Ledger, iface: AddressInterface, lastWrite: Option<nat>)
    ensures var r := Scan(t, from, end, tracked, ledger, iface, lastWrite);
      r.stop.UnknownKindAt? ==> (ledger.blockByNumber(r.stop.at).Some?
        && Touches(ledger.blockByNumber(r.stop.at).value, tracked)
        && !AllClassifiable(ledger, tracked, ledger.blockByNumber(r.stop.at).value.txs))
    decreases end - from
  {
    if from < end && ledger.blockByNumber(from).Some? {
      var b := ledger.blockByNumber(from).value;
      if !Touches(b, tracked) {
        ScanStopsAtBadBlock(t, from + 1, end, tracked, ledger, iface, lastWrite);
      } else {
        var a := ApplyTxs(t, b.txs, tracked, ledger, iface, b);
        if a.ok {
          ScanStopsAtBadBlock(a.table, from + 1, end, tracked, ledger, iface, Some(from + 1));
        }
      }
    }
  }

  /** A block with an unclassifiable transaction of a tracked sender stops
      every scan that reaches it: started anywhere at or before it, over
      settled blocks, the scan fails on that same block again. */
  lemma {:induction false} StuckOnUnknownKind(t: TxTable, from: nat, end: nat, tracked: set<AccountId>, ledger: Ledger, iface: AddressInterface,
                                             lastWrite: Option<nat>, j: nat)
    requires from <= j < end
    requires forall i :: from <= i < j ==> BlockSettled(t, i, tracked, ledger)
    requires ledger.blockByNumber(j).Some?
    requires var b := ledger.blockByNumber(j).value; Touches(b, tracked) && !AllClassifiable(ledger, tracked, b.txs)
    ensures Scan(t, from, end, tracked, ledger, iface, lastWrite).stop == UnknownKindAt(j)
    decreases j - from
  {
    if from < j {
      assert BlockSettled(t, from, tracked, ledger);
      var b := ledger.blockByNumber(from).value;
      if !Touches(b, tracked) {
        StuckOnUnknownKind(t, from + 1, end, tracked, ledger, iface, lastWrite, j);
      } else {
        SettledNoop(t, b.txs, tracked, ledger, iface, b);
        StuckOnUnknownKind(t, from + 1, end, tracked, ledger, iface, Some(from + 1), j);
      }
    }
  }
}
