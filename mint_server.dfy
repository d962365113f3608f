/** The faucet's mint server (src/bin/mint-server.rs): HTTP handlers put mint
    requests on a FIFO queue, and a processor thread periodically drains the
    whole queue, mints for the batch in one transaction and hands the same
    result to every request of the batch. Threads, the mutex and the timers are
    replaced by sequential steps; the 120-second wait of a handler is a
    parameter saying whether the timer fired first. */
module MintServer {
  import opened Wrappers
  import opened Text
  import opened AccountIds

  // ---------------------------------------------------------------------------
  // bulk_mint

  /** A pay-to-id note carrying `amount` of the faucet's asset to `target`. */
  datatype P2idNote = P2idNote(target: AccountId, amount: U64)

  /** The result of `submit_transaction_with_prover`. */
  datatype SubmitOutcome = Submitted | ProvingError(message: string) | OtherError(message: string)

  /** The client library as `bulk_mint` uses it:
      `assetOk(a)`: `FungibleAsset::new(FAUCET_ID, a)` succeeds;
      `noteError(t, a)`: the error of `create_p2id_note`, if any;
      `execute(ns)`: `new_transaction` for those output notes, giving the
      executed transaction's id (hex) or an error;
      `submitLocal(d)`: the error of the local-prover `submit_transaction`, if any. */
  datatype MintLedger = MintLedger(
    fromBech32: string -> AddressParse,
    assetOk: U64 -> bool,
    noteError: (AccountId, U64) -> Option<string>,
    execute: seq<P2idNote> -> Result<string>,
    submitWithProver: string -> SubmitOutcome,
    submitLocal: string -> Option<string>)

  /** One entry of `mint_data`. */
  datatype MintItem = MintItem(address: string, amount: U64)

  /** The notes for a batch: the list of notes, the first note-creation error,
      or the panic of `FungibleAsset::new(..).unwrap()`. */
  datatype NotesResult = Notes(notes: seq<P2idNote>) | NoteFailed(message: string) | AssetPanic

  /** The requests whose address is a bech32 account-id address, as the notes
      they call for, in request order. */
  function Resolved(ml: MintLedger, items: seq<MintItem>): (ns: seq<P2idNote>)
    ensures |ns| <= |items|
    decreases |items|
  {
    if items == [] then []
    else
      var rest := Resolved(ml, items[1..]);
      match ml.fromBech32(items[0].address)
      case AccountIdAddress(id) => [P2idNote(id, items[0].amount)] + rest
      case _ => rest
  }

  /** The note loop of `bulk_mint`: for each request the asset is built first
      (a panic when the amount is refused), then an address that is not an
      account-id address is passed over, then the note is created. */
  function NotesFor(ml: MintLedger, items: seq<MintItem>): (r: NotesResult)
    ensures r.Notes? ==> r.notes == Resolved(ml, items)
    ensures r.AssetPanic? ==> exists k :: 0 <= k < |items| && !ml.assetOk(items[k].amount)
    ensures (forall k :: 0 <= k < |items| ==> ml.assetOk(items[k].amount)) ==> !r.AssetPanic?
    decreases |items|
  {
    if items == [] then Notes([])
    else if !ml.assetOk(items[0].amount) then AssetPanic
    else
      assert forall k :: 1 <= k < |items| ==> items[1..][k - 1] == items[k];
      match ml.fromBech32(items[0].address)
      case AccountIdAddress(id) =>
        (match ml.noteError(id, items[0].amount)
         case Some(e) => NoteFailed(e)
         case None =>
           match NotesFor(ml, items[1..])
           case Notes(ns) => Notes([P2idNote(id, items[0].amount)] + ns)
           case other => other)
      case _ => NotesFor(ml, items[1..])
  }

  /** Executing and submitting the minting transaction: a proving error, and
      only that, is retried with the local prover. */
  function Submit(ml: MintLedger, notes: seq<P2idNote>): (r: Result<string>)
    ensures r.Ok? ==> ml.execute(notes) == Ok(r.value)
    ensures r.Ok? <==> (ml.execute(notes).Ok? &&
      (ml.submitWithProver(ml.execute(notes).value).Submitted? ||
       (ml.submitWithProver(ml.execute(notes).value).ProvingError? && ml.submitLocal(ml.execute(notes).value).None?)))
  {
    match ml.execute(notes)
    case Err(e) => Err(e)
    case Ok(digest) =>
      match ml.submitWithProver(digest)
      case Submitted => Ok(digest)
      case ProvingError(_) =>
        (match ml.submitLocal(digest)
         case None => Ok(digest)
         case Some(e) => Err(e))
      case OtherError(e) => Err(e)
  }

  /** What a call of `bulk_mint` ends in: a result, or a panic. */
  datatype BatchOutcome = Finished(result: Result<string>) | Panicked

  function BulkMintSpec(ml: MintLedger, items: seq<MintItem>): (o: BatchOutcome)
    ensures o.Panicked? <==> NotesFor(ml, items).AssetPanic?
    ensures NotesFor(ml, items).NoteFailed? ==> o == Finished(Err(NotesFor(ml, items).message))
    ensures o.Finished? && o.result.Ok? ==> ml.execute(Resolved(ml, items)) == Ok(o.result.value)
  {
    match NotesFor(ml, items)
    case AssetPanic => Panicked
    case NoteFailed(e) => Finished(Err(e))
    case Notes(ns) => Finished(Submit(ml, ns))
  }

  /** A successful mint reports the id of the transaction that carries exactly
      one note per request with an account-id address, in request order. */
  lemma BulkMintDigest(ml: MintLedger, items: seq<MintItem>)
    requires BulkMintSpec(ml, items).Finished? && BulkMintSpec(ml, items).result.Ok?
    ensures ml.execute(Resolved(ml, items)) == Ok(BulkMintSpec(ml, items).result.value)
  {
  }

  /** Requests whose address does not resolve are skipped without error. */
  lemma {:induction false} UnresolvedSkipped(ml: MintLedger, item: MintItem, items: seq<MintItem>)
    requires !ml.fromBech32(item.address).AccountIdAddress? && ml.assetOk(item.amount)
    ensures NotesFor(ml, [item] + items) == NotesFor(ml, items)
    ensures Resolved(ml, [item] + items) == Resolved(ml, items)
  {
    assert ([item] + items)[0] == item && ([item] + items)[1..] == items;
  }

  /** `bulk_mint`, with its note-building loop. */
  method BulkMint(ml: MintLedger, items: seq<MintItem>) returns (outcome: BatchOutcome)
    ensures outcome == BulkMintSpec(ml, items)
  {
    var p2idNotes: seq<P2idNote> := [];
    var i := 0;
    while i < |items|
      invariant 0 <= i <= |items|
      invariant NotesFor(ml, items) == PrependNotes(p2idNotes, NotesFor(ml, items[i..]))
    {
      NotesStep(ml, items, i, p2idNotes);
      var item := items[i];
      if !ml.assetOk(item.amount) {
        return Panicked;
      }
      var target := ml.fromBech32(item.address);
      if !target.AccountIdAddress? {
        i := i + 1;
        continue;
      }
      var e := ml.noteError(target.id, item.amount);
      if e.Some? {
        return Finished(Err(e.value));
      }
      p2idNotes := p2idNotes + [P2idNote(target.id, item.amount)];
      i := i + 1;
    }
    assert items[i..] == [] && p2idNotes + [] == p2idNotes;
    outcome := Finished(Submit(ml, p2idNotes));
  }

  function PrependNotes(done: seq<P2idNote>, r: NotesResult): NotesResult {
    match r
    case Notes(ns) => Notes(done + ns)
    case other => other
  }

  /** One step of the note loop from position `i` on. */
  lemma NotesStep(ml: MintLedger, items: seq<MintItem>, i: nat, done: seq<P2idNote>)
    requires i < |items|
    ensures var item := items[i];
      var here := PrependNotes(done, NotesFor(ml, items[i..]));
      && (!ml.assetOk(item.amount) ==> here == AssetPanic)
      && (ml.assetOk(item.amount) && !ml.fromBech32(item.address).AccountIdAddress? ==>
            here == PrependNotes(done, NotesFor(ml, items[i + 1..])))
      && (ml.assetOk(item.amount) && ml.fromBech32(item.address).AccountIdAddress? ==>
            var id := ml.fromBech32(item.address).id;
            (ml.noteError(id, item.amount).Some? ==> here == NoteFailed(ml.noteError(id, item.amount).value))
            && (ml.noteError(id, item.amount).None? ==>
                 here == PrependNotes(done + [P2idNote(id, item.amount)], NotesFor(ml, items[i + 1..]))))
  {
    assert items[i..][0] == items[i] && items[i..][1..] == items[i + 1..];
    var rest := NotesFor(ml, items[i + 1..]);
    if rest.Notes? && ml.fromBech32(items[i].address).AccountIdAddress? {
      var n := P2idNote(ml.fromBech32(items[i].address).id, items[i].amount);
      assert done + ([n] + rest.notes) == (done + [n]) + rest.notes;
    }
  }

  // ---------------------------------------------------------------------------
  // The queue and its processor

  /** A queued request; `ticket` stands for its one-shot response channel. */
  datatype MintRequest = MintRequest(address: string, amount: U64, ticket: nat)

  /** What reaches a response channel: the batch result, or the closing of the
      channel when the processor thread died with the sender in hand. */
  datatype Delivery = Delivered(result: Result<string>) | Dropped

  function MintData(pending: seq<MintRequest>): (items: seq<MintItem>)
    ensures |items| == |pending|
    ensures forall k :: 0 <= k < |pending| ==> items[k] == MintItem(pending[k].address, pending[k].amount)
  {
    seq(|pending|, k requires 0 <= k < |pending| => MintItem(pending[k].address, pending[k].amount))
  }

  function TicketsOf(reqs: seq<MintRequest>): set<nat> {
    set k | 0 <= k < |reqs| :: reqs[k].ticket
  }

  /** Delivering to issued tickets only keeps every channel an issued one. */
  lemma DeliverBelow(m: map<nat, Delivery>, reqs: seq<MintRequest>, d: Delivery, next: nat)
    requires forall t :: t in m ==> t < next
    requires forall i :: 0 <= i < |reqs| ==> reqs[i].ticket < next
    ensures forall t :: t in Deliver(m, reqs, d) ==> t < next
  {
    assert forall t :: t in TicketsOf(reqs) ==> t < next;
  }

  /** Sending `d` on the channel of each request. */
  function Deliver(m: map<nat, Delivery>, reqs: seq<MintRequest>, d: Delivery): (r: map<nat, Delivery>)
    ensures r.Keys == m.Keys + TicketsOf(reqs)
    ensures forall k :: 0 <= k < |reqs| ==> r[reqs[k].ticket] == d
    ensures forall t :: t in m && t !in TicketsOf(reqs) ==> r[t] == m[t]
    decreases |reqs|
  {
    if reqs == [] then m
    else
      assert forall k :: 1 <= k < |reqs| ==> reqs[1..][k - 1] == reqs[k];
      assert TicketsOf(reqs) == {reqs[0].ticket} + TicketsOf(reqs[1..]);
      Deliver(m[reqs[0].ticket := d], reqs[1..], d)
  }

  const TIMEOUT: string := "Timeout waiting for batch processing"
  const CHANNEL_CLOSED: string := "Channel closed"

  /** What a handler's wait yields: the timeout error if the 120-second timer
      fires first, otherwise whatever reached its channel (`None`: still
      waiting). */
  function Await(d: Option<Delivery>, expired: bool): (r: Option<Result<string>>)
    ensures expired ==> r == Some(Err(TIMEOUT))
    ensures !expired && d.Some? && d.value.Delivered? ==> r == Some(d.value.result)
    ensures !expired && d == Some(Dropped) ==> r == Some(Err(CHANNEL_CLOSED))
    ensures !expired && d.None? ==> r.None?
  {
    if expired then Some(Err(TIMEOUT))
    else match d
      case None => None
      case Some(Delivered(res)) => Some(res)
      case Some(Dropped) => Some(Err(CHANNEL_CLOSED))
  }

  datatype HttpResponse = HttpResponse(status: nat, body: string)

  const NOT_FOUND_RESPONSE: HttpResponse := HttpResponse(404, "Not Found")
  const BAD_FORMAT_RESPONSE: HttpResponse := HttpResponse(400, "Invalid mint request format. Use /mint/<address>/<amount>")
  const BAD_AMOUNT_RESPONSE: HttpResponse := HttpResponse(400, "Invalid amount format.")

  /** The response for a mint result: the digest with 200, or the error after
      "Error: " with 500. */
  function MintResponse(r: Result<string>): (resp: HttpResponse)
    ensures resp.status == 200 <==> r.Ok?
    ensures r.Ok? ==> resp.body == r.value
    ensures r.Err? ==> resp.status == 500 && resp.body == "Error: " + r.error
  {
    match r
    case Ok(digest) => HttpResponse(200, digest)
    case Err(e) => HttpResponse(500, "Error: " + e)
  }

  /** The mint queue, the response channels and the processor thread. */
  class MintService {
    const ml: MintLedger
    var queue: seq<MintRequest>
    var nextTicket: nat
    /** What has been sent on each response channel. */
    var deliveries: map<nat, Delivery>
    /** The processor thread has not died of a panic. */
    var processorAlive: bool
    /** The batches handed to `bulk_mint`, oldest first. */
    var batches: seq<seq<MintItem>>

    ghost predicate Valid()
      reads this
    {
      && (forall i :: 0 <= i < |queue| ==> queue[i].ticket < nextTicket && queue[i].ticket !in deliveries)
      && (forall i, j :: 0 <= i < j < |queue| ==> queue[i].ticket != queue[j].ticket)
      && (forall t :: t in deliveries ==> t < nextTicket)
    }

    constructor (ml: MintLedger)
      ensures this.ml == ml && queue == [] && nextTicket == 0 && deliveries == map[]
      ensures processorAlive && batches == []
      ensures Valid()
    {
      this.ml := ml;
      queue := [];
      nextTicket := 0;
      deliveries := map[];
      processorAlive := true;
      batches := [];
    }

    /** `queue.push_back(mint_request)` with a fresh response channel. */
    method Enqueue(address: string, amount: U64) returns (ticket: nat)
      modifies this`queue, this`nextTicket
      requires Valid()
      ensures Valid()
      ensures ticket == old(nextTicket) && nextTicket == old(nextTicket) + 1
      ensures queue == old(queue) + [MintRequest(address, amount, ticket)]
      ensures ticket !in deliveries
    {
      ticket := nextTicket;
      queue := queue + [MintRequest(address, amount, ticket)];
      nextTicket := nextTicket + 1;
    }

    /** The `pop_front` loop: takes the whole queue, in order. */
    method Drain() returns (pending: seq<MintRequest>)
      modifies this`queue
      ensures pending == old(queue) && queue == []
    {
      pending := [];
      while |queue| > 0
        invariant pending + queue == old(queue)
      {
        pending := pending + [queue[0]];
        queue := queue[1..];
      }
    }

    /** One round of the processor loop after its sleep. A dead processor
        does nothing; an empty queue makes no call; otherwise the batch is
        minted once and every drained request gets the same result, or, if
        the call panics, every drained channel is closed and the processor
        is gone. */
    method ProcessBatch()
      modifies this`queue, this`deliveries, this`processorAlive, this`batches
      requires Valid()
      ensures Valid()
      ensures !old(processorAlive) || old(queue) == [] ==>
        queue == old(queue) && deliveries == old(deliveries) && processorAlive == old(processorAlive) && batches == old(batches)
      ensures old(processorAlive) && old(queue) != [] ==>
        var items := MintData(old(queue));
        && queue == []
        && batches == old(batches) + [items]
        && (BulkMintSpec(ml, items).Finished? ==>
              processorAlive && deliveries == Deliver(old(deliveries), old(queue), Delivered(BulkMintSpec(ml, items).result)))
        && (BulkMintSpec(ml, items).Panicked? ==>
              !processorAlive && deliveries == Deliver(old(deliveries), old(queue), Dropped))
    {
      if !processorAlive {
        return;
      }
      var pending := Drain();
      if |pending| == 0 {
        return;
      }
      RunBatch(pending);
    }

    /** Minting a drained, non-empty batch and answering every request of it. */
    method RunBatch(pending: seq<MintRequest>)
      modifies this`deliveries, this`processorAlive, this`batches
      requires forall t :: t in deliveries ==> t < nextTicket
      requires forall i :: 0 <= i < |pending| ==> pending[i].ticket < nextTicket
      ensures forall t :: t in deliveries ==> t < nextTicket
      ensures batches == old(batches) + [MintData(pending)]
      ensures BulkMintSpec(ml, MintData(pending)).Finished? ==>
        processorAlive == old(processorAlive)
        && deliveries == Deliver(old(deliveries), pending, Delivered(BulkMintSpec(ml, MintData(pending)).result))
      ensures BulkMintSpec(ml, MintData(pending)).Panicked? ==>
        !processorAlive && deliveries == Deliver(old(deliveries), pending, Dropped)
    {
      var items := MintData(pending);
      batches := batches + [items];
      var outcome := BulkMint(ml, items);
      var d := if outcome.Finished? then Delivered(outcome.result) else Dropped;
      DeliverBelow(deliveries, pending, d, nextTicket);
      SendAll(pending, d);
      if outcome.Panicked? {
        processorAlive := false;
      }
    }

    /** The `for request in pending { request.response_tx.send(..) }` loop. */
    method SendAll(pending: seq<MintRequest>, d: Delivery)
      modifies this`deliveries
      ensures deliveries == Deliver(old(deliveries), pending, d)
    {
      var k := 0;
      assert pending[0..] == pending;
      while k < |pending|
        invariant 0 <= k <= |pending|
        invariant Deliver(old(deliveries), pending, d) == Deliver(deliveries, pending[k..], d)
      {
        assert pending[k..][1..] == pending[k + 1..];
        deliveries := deliveries[pending[k].ticket := d];
        k := k + 1;
      }
      assert pending[k..] == [];
    }

    /** The response a handler waiting on `ticket` writes, once it has one. */
    function Answer(ticket: nat, expired: bool): (resp: Option<HttpResponse>)
      reads this
      ensures resp.Some? ==> resp.value.status == 200 || resp.value.status == 500
      ensures expired ==> resp == Some(HttpResponse(500, "Error: " + TIMEOUT))
    {
      var d := if ticket in deliveries then Some(deliveries[ticket]) else None;
      match Await(d, expired)
      case None => None
      case Some(r) => Some(MintResponse(r))
    }
  }

  /** A drained batch is minted once and every one of its requests is
      answered with the same batch result. */
  lemma BatchSharesOneResult(old_deliveries: map<nat, Delivery>, batch: seq<MintRequest>, ml: MintLedger, i: nat, j: nat)
    requires i < |batch| && j < |batch|
    requires BulkMintSpec(ml, MintData(batch)).Finished?
    ensures var d := Deliver(old_deliveries, batch, Delivered(BulkMintSpec(ml, MintData(batch)).result));
      d[batch[i].ticket] == d[batch[j].ticket] == Delivered(BulkMintSpec(ml, MintData(batch)).result)
  {
  }

  // ---------------------------------------------------------------------------
  // handle_client

  /** How `handle_client` reads a request. */
  datatype Route = NotFound | BadFormat | BadAmount | Mint(address: string, amount: U64)

  const MINT_PREFIX: string := "GET /mint/"
  const MINT_PATH: string := "/mint/"

  /** The second space-separated word of the request's first line. */
  function RequestPath(request: string): (path: string)
    ensures ' ' !in path
  {
    NthOrEmpty(Split(FirstLine(request), ' '), 1)
  }

  /** The '/'-separated pieces of a path once its leading "/mint/"s are stripped. */
  function PathParts(path: string): (parts: seq<string>)
    ensures 0 < |parts| && forall k :: 0 <= k < |parts| ==> '/' !in parts[k]
    ensures Join(parts, '/') == TrimStartMatches(path, MINT_PATH)
  {
    JoinSplit(TrimStartMatches(path, MINT_PATH), '/');
    Split(TrimStartMatches(path, MINT_PATH), '/')
  }

  /** The request text (the received bytes, decoded lossily) is a mint
      request if it starts with "GET /mint/"; the path is the second
      space-separated word of the first line, which after stripping leading
      "/mint/"s must split on '/' into an address and a u64 amount. */
  function RouteMintRequest(request: string): (r: Route)
    ensures r.NotFound? <==> !StartsWith(request, MINT_PREFIX)
    ensures r.BadFormat? <==> StartsWith(request, MINT_PREFIX) && |PathParts(RequestPath(request))| != 2
    ensures r.BadAmount? <==> (&& StartsWith(request, MINT_PREFIX) && |PathParts(RequestPath(request))| == 2
                               && ParseUnsigned(PathParts(RequestPath(request))[1], U64_LIMIT).None?)
    ensures r.Mint? ==> (&& PathParts(RequestPath(request)) == [r.address, PathParts(RequestPath(request))[1]]
                         && ParseUnsigned(PathParts(RequestPath(request))[1], U64_LIMIT) == Some(r.amount))
    ensures r.Mint? ==> '/' !in r.address && r.amount < U64_LIMIT
  {
    if !StartsWith(request, MINT_PREFIX) then NotFound
    else
      var parts := PathParts(RequestPath(request));
      if |parts| != 2 then BadFormat
      else match ParseUnsigned(parts[1], U64_LIMIT)
        case None => BadAmount
        case Some(n) => Mint(parts[0], n)
  }

  lemma TrimStartMatchesOnce(p: string, x: string)
    requires 0 < |p| && !StartsWith(x, p)
    ensures TrimStartMatches(p + x, p) == x
  {
    assert StartsWith(p + x, p);
    assert (p + x)[|p|..] == x;
  }

  /** A numeral holds no character other than digits. */
  lemma NumeralAvoids(s: string, c: char)
    requires AllDigits(s) && !IsDigit(c)
    ensures c !in s
  {
    forall k | 0 <= k < |s| ensures s[k] != c {
    }
  }

  /** The path word of a request line "GET <path> ...". */
  lemma PathOfRequest(path: string, rest: string)
    requires ' ' !in path && '\n' !in path
    ensures RequestPath("GET " + path + " " + rest) == path
  {
    var head := "GET" + [' '] + path;
    assert '\n' !in head;
    var y := FirstLineKeepsPrefix(head, rest);
    assert head + [' '] + rest == "GET " + path + " " + rest;
    var line := "GET" + [' '] + (path + [' '] + y);
    assert FirstLine("GET " + path + " " + rest) == line;
    assert Split(line, ' ') == ["GET"] + Split(path + [' '] + y, ' ') by {
      SplitAfterPiece("GET", ' ', path + [' '] + y);
    }
    assert Split(path + [' '] + y, ' ') == [path] + Split(y, ' ') by {
      SplitAfterPiece(path, ' ', y);
    }
  }

  /** Text that begins with "/mint/" begins with "/m". */
  lemma MintPathHead(x: string)
    requires 1 < |x|
    ensures StartsWith(x, MINT_PATH) ==> x[0] == '/' && x[1] == 'm'
  {
    if StartsWith(x, MINT_PATH) {
      assert x[..|MINT_PATH|][0] == x[0] && x[..|MINT_PATH|][1] == x[1];
    }
  }

  /** The path "/mint/<address>/<amount>" splits into the address and the amount. */
  lemma PartsOfPath(address: string, num: string)
    requires '/' !in address && 0 < |num| && AllDigits(num)
    ensures PathParts(MINT_PATH + address + "/" + num) == [address, num]
  {
    var tail := address + "/" + num;
    assert IsDigit(num[0]);
    if |address| > 0 {
      assert tail[0] == address[0] && address[0] in address;
    } else {
      assert tail[1] == num[0];
    }
    MintPathHead(tail);
    assert !StartsWith(tail, MINT_PATH);
    assert MINT_PATH + address + "/" + num == MINT_PATH + tail;
    TrimStartMatchesOnce(MINT_PATH, tail);
    assert Split(tail, '/') == [address] + Split(num, '/') by {
      assert tail == address + ['/'] + num;
      SplitAfterPiece(address, '/', num);
    }
    assert Split(num, '/') == [num] by {
      NumeralAvoids(num, '/');
      SplitSeparatorFree(num, '/');
    }
  }

  /** Every well-formed mint request is routed to a mint of exactly the
      address and amount it names, whatever follows the path. */
  lemma RouteRoundTrip(address: string, amount: U64, rest: string)
    requires ' ' !in address && '/' !in address && '\n' !in address
    ensures RouteMintRequest(MINT_PREFIX + address + "/" + ToDecimal(amount) + " " + rest) == Mint(address, amount)
  {
    var num := ToDecimal(amount);
    var path := MINT_PATH + address + "/" + num;
    var request := MINT_PREFIX + address + "/" + num + " " + rest;
    RequestLayout(address, num, rest);
    PathAvoids(address, num);
    PathOfRequest(path, rest);
    PartsOfPath(address, num);
    ParseUnsignedToDecimal(amount, U64_LIMIT);
    RouteOfParts(request, address, amount);
  }

  /** A mint path holds neither a space nor a line break. */
  lemma PathAvoids(address: string, num: string)
    requires ' ' !in address && '\n' !in address && AllDigits(num)
    ensures ' ' !in MINT_PATH + address + "/" + num && '\n' !in MINT_PATH + address + "/" + num
  {
    NumeralAvoids(num, ' ');
    NumeralAvoids(num, '\n');
  }

  /** A mint request line is "GET ", the path, a space and the rest. */
  lemma RequestLayout(address: string, num: string, rest: string)
    ensures var request := MINT_PREFIX + address + "/" + num + " " + rest;
      && request == "GET " + (MINT_PATH + address + "/" + num) + " " + rest
      && StartsWith(request, MINT_PREFIX)
  {
    var request := MINT_PREFIX + address + "/" + num + " " + rest;
    assert request[..|MINT_PREFIX|] == MINT_PREFIX;
  }

  /** A request whose path splits into an address and a valid amount is a mint. */
  lemma RouteOfParts(request: string, address: string, amount: U64)
    requires StartsWith(request, MINT_PREFIX)
    requires PathParts(RequestPath(request)) == [address, ToDecimal(amount)]
    requires ParseUnsigned(ToDecimal(amount), U64_LIMIT) == Some(amount)
    ensures RouteMintRequest(request) == Mint(address, amount)
  {
  }

  /** `GET /mint/<pieces joined by '/'> <rest>` is a mint request whose path
      splits back into the pieces. */
  lemma MintRequestParts(pieces: seq<string>, rest: string)
    requires 0 < |pieces| && 0 < |pieces[0]|
    requires forall k :: 0 <= k < |pieces| ==> ' ' !in pieces[k] && '/' !in pieces[k] && '\n' !in pieces[k]
    ensures var request := MINT_PREFIX + Join(pieces, '/') + " " + rest;
      StartsWith(request, MINT_PREFIX) && PathParts(RequestPath(request)) == pieces
  {
    var tail := Join(pieces, '/');
    var path := MINT_PATH + tail;
    var request := MINT_PREFIX + tail + " " + rest;
    assert request == "GET " + path + " " + rest;
    assert request[..|MINT_PREFIX|] == MINT_PREFIX;
    JoinAvoids(pieces, '/', ' ');
    JoinAvoids(pieces, '/', '\n');
    PathOfRequest(path, rest);
    assert tail[0] == pieces[0][0] && pieces[0][0] in pieces[0];
    if 1 < |tail| {
      MintPathHead(tail);
    }
    assert !StartsWith(tail, MINT_PATH);
    TrimStartMatchesOnce(MINT_PATH, tail);
    SplitJoin(pieces, '/');
  }

  /** Routing by the pieces of a "/mint/" path, for every request whose path
      is the pieces joined by '/', with a non-empty first piece: anything but
      two pieces is a bad format, a second piece that is not a u64 is a bad
      amount, and otherwise the request mints the parsed amount to the first piece. */
  lemma RouteOfPath(pieces: seq<string>, rest: string)
    requires 0 < |pieces| && 0 < |pieces[0]|
    requires forall k :: 0 <= k < |pieces| ==> ' ' !in pieces[k] && '/' !in pieces[k] && '\n' !in pieces[k]
    ensures var r := RouteMintRequest(MINT_PREFIX + Join(pieces, '/') + " " + rest);
      && (|pieces| != 2 ==> r == BadFormat)
      && (|pieces| == 2 && ParseUnsigned(pieces[1], U64_LIMIT).None? ==> r == BadAmount)
      && (|pieces| == 2 && ParseUnsigned(pieces[1], U64_LIMIT).Some? ==>
            r == Mint(pieces[0], ParseUnsigned(pieces[1], U64_LIMIT).value))
  {
    MintRequestParts(pieces, rest);
  }

  /** A request that is not a well-formed mint never reaches the queue. */
  method HandleClient(service: MintService, request: string) returns (immediate: Option<HttpResponse>, ticket: Option<nat>)
    modifies service`queue, service`nextTicket
    requires service.Valid()
    ensures service.Valid()
    ensures RouteMintRequest(request).NotFound? ==> immediate == Some(NOT_FOUND_RESPONSE)
    ensures RouteMintRequest(request).BadFormat? ==> immediate == Some(BAD_FORMAT_RESPONSE)
    ensures RouteMintRequest(request).BadAmount? ==> immediate == Some(BAD_AMOUNT_RESPONSE)
    ensures !RouteMintRequest(request).Mint? ==> ticket.None? && service.queue == old(service.queue)
    ensures RouteMintRequest(request).Mint? ==>
      immediate.None? && ticket == Some(old(service.nextTicket))
      && service.queue == old(service.queue)
           + [MintRequest(RouteMintRequest(request).address, RouteMintRequest(request).amount, ticket.value)]
  {
    match RouteMintRequest(request)
    case NotFound =>
      return Some(NOT_FOUND_RESPONSE), None;
    case BadFormat =>
      return Some(BAD_FORMAT_RESPONSE), None;
    case BadAmount =>
      return Some(BAD_AMOUNT_RESPONSE), None;
    case Mint(address, amount) =>
      var t := service.Enqueue(address, amount);
      return None, Some(t);
  }
}
