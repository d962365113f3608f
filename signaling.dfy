/** The WebRTC signaling relay of `signaling-server/src/index.ts`: a list of
    connected clients with the wallet each registered, a wallet-to-connection
    table, and the messages relayed between them. Connections are identified
    by number; what the relay sends is appended to an outbox. */
module Signaling {
  import opened Wrappers

  /** A WebSocket connection, by identity. */
  type Conn = nat

  /** An entry of `clients`; the wallet is empty until the client registers. */
  datatype ClientEntry = ClientEntry(conn: Conn, wallet: string)

  /** A parsed inbound message, by its `type` field; payloads are opaque. */
  datatype Inbound =
    | Register(wallet: string)
    | CreateOffer(to: string, offer: string)
    | ForwardAnswer(to: string, answer: string)
    | ForwardIceCandidate(to: string, candidate: string)
    | UnknownType

  /** What the relay sends. */
  datatype Outbound =
    | Offer(offer: string, from: string)
    | Answer(answer: string, from: string)
    | IceCandidate(iceCandidate: string, from: string)
    | ReceiverOffline(message: string)

  datatype Envelope = Envelope(dest: Conn, msg: Outbound)

  predicate IsForward(m: Inbound) {
    m.CreateOffer? || m.ForwardAnswer? || m.ForwardIceCandidate?
  }

  /** The text of a RECEIVER_OFFLINE reply. */
  function OfflineText(to: string): string {
    "Client " + to + " is offline. please ask them to open app"
  }

  /** `clients.find(c => c.ws === ws)`: the first entry of that connection. */
  function FindClient(clients: seq<ClientEntry>, conn: Conn): (r: Option<nat>)
    ensures r.Some? ==> (&& r.value < |clients| && clients[r.value].conn == conn
                         && forall k :: 0 <= k < r.value ==> clients[k].conn != conn)
    ensures r.None? <==> forall k :: 0 <= k < |clients| ==> clients[k].conn != conn
    decreases |clients|
  {
    if clients == [] then None
    else if clients[0].conn == conn then Some(0)
    else match FindClient(clients[1..], conn)
      case None => None
      case Some(i) => Some(i + 1)
  }

  /** `clients.filter(c => c.ws !== ws)`. */
  function Without(clients: seq<ClientEntry>, conn: Conn): (r: seq<ClientEntry>)
    ensures |r| <= |clients|
    ensures forall k :: 0 <= k < |r| ==> r[k].conn != conn
    decreases |clients|
  {
    if clients == [] then []
    else (if clients[0].conn == conn then [] else [clients[0]]) + Without(clients[1..], conn)
  }

  /** The filter keeps exactly the entries of other connections. */
  lemma {:induction false} WithoutMembers(clients: seq<ClientEntry>, conn: Conn)
    ensures forall e :: e in Without(clients, conn) <==> e in clients && e.conn != conn
    decreases |clients|
  {
    if clients != [] {
      WithoutMembers(clients[1..], conn);
      assert forall e :: e in clients <==> e == clients[0] || e in clients[1..];
    }
  }

  /** Removing a connection that appears once shortens the list by one and
      keeps the order of the others. */
  lemma {:induction false} WithoutOne(clients: seq<ClientEntry>, i: nat)
    requires i < |clients| && forall k :: 0 <= k < |clients| && k != i ==> clients[k].conn != clients[i].conn
    ensures Without(clients, clients[i].conn) == clients[..i] + clients[i + 1..]
    decreases |clients|
  {
    var conn := clients[i].conn;
    if i == 0 {
      WithoutAbsent(clients[1..], conn);
    } else {
      WithoutOne(clients[1..], i - 1);
      assert clients[1..][..i - 1] == clients[1..i];
      assert clients[1..][i..] == clients[i + 1..];
      assert clients[..i] == [clients[0]] + clients[1..i];
    }
  }

  lemma {:induction false} WithoutAbsent(clients: seq<ClientEntry>, conn: Conn)
    requires forall k :: 0 <= k < |clients| ==> clients[k].conn != conn
    ensures Without(clients, conn) == clients
    decreases |clients|
  {
    if clients != [] {
      WithoutAbsent(clients[1..], conn);
      assert [clients[0]] + clients[1..] == clients;
    }
  }

  /** The wallet table once every entry pointing at `conn` is deleted. */
  function Unmapped(walletMap: map<string, Conn>, conn: Conn): (m: map<string, Conn>)
    ensures forall w :: w in m <==> w in walletMap && walletMap[w] != conn
    ensures forall w :: w in m ==> m[w] == walletMap[w]
  {
    map w | w in walletMap && walletMap[w] != conn :: walletMap[w]
  }

  /** Where a forwarded message goes: to the connection the wallet is mapped
      to, or, when `to` is unmapped, a RECEIVER_OFFLINE back to the sender. */
  function Relay(walletMap: map<string, Conn>, sender: Conn, to: string, out: Outbound): (e: Envelope)
    ensures to in walletMap ==> e == Envelope(walletMap[to], out)
    ensures to !in walletMap ==> e == Envelope(sender, ReceiverOffline(OfflineText(to)))
  {
    if to in walletMap then Envelope(walletMap[to], out)
    else Envelope(sender, ReceiverOffline(OfflineText(to)))
  }

  /** The message a forward carries, tagged with the sender's wallet. */
  function Forwarded(m: Inbound, fromWallet: string): (out: Outbound)
    requires IsForward(m)
    ensures out.ReceiverOffline? == false && (out.Offer? <==> m.CreateOffer?)
    ensures (out.Offer? || out.Answer? || out.IceCandidate?) && out.from == fromWallet
  {
    match m
    case CreateOffer(_, offer) => Offer(offer, fromWallet)
    case ForwardAnswer(_, answer) => Answer(answer, fromWallet)
    case ForwardIceCandidate(_, candidate) => IceCandidate(candidate, fromWallet)
  }

  /** The relay never addresses a closed connection: when every table entry
      names a live client, so does every envelope. */
  lemma RelayReachesLiveClient(clients: seq<ClientEntry>, walletMap: map<string, Conn>, sender: Conn, to: string, out: Outbound)
    requires forall w :: w in walletMap ==> FindClient(clients, walletMap[w]).Some?
    requires FindClient(clients, sender).Some?
    ensures FindClient(clients, Relay(walletMap, sender, to, out).dest).Some?
  {
  }

  /** The module-level state of the server. */
  class SignalingServer {
    var clients: seq<ClientEntry>
    var walletMap: map<string, Conn>
    /** Everything sent so far, in order. */
    var outbox: seq<Envelope>
    /** Connections below this number have been opened. */
    var nextConn: nat

    ghost predicate Valid()
      reads this
    {
      StateValid(clients, walletMap, nextConn)
    }

    constructor ()
      ensures clients == [] && walletMap == map[] && outbox == [] && nextConn == 0
      ensures Valid()
    {
      clients := [];
      walletMap := map[];
      outbox := [];
      nextConn := 0;
    }

    /** `wss.on('connection')`: a new socket joins with no wallet. */
    method Connect() returns (conn: Conn)
      requires Valid()
      modifies this`clients, this`nextConn
      ensures clients == old(clients) + [ClientEntry(conn, "")]
      ensures FindClient(old(clients), conn).None?
      ensures nextConn == old(nextConn) + 1
      ensures Valid()
    {
      conn := nextConn;
      ConnectKeepsValid(clients, walletMap, nextConn);
      clients := clients + [ClientEntry(conn, "")];
      nextConn := nextConn + 1;
    }

    /** `ws.on('message')` of connection `conn`. A forward from a connection
        with no client entry dereferences `undefined` and throws: `fault`. */
    method OnMessage(conn: Conn, m: Inbound) returns (fault: bool)
      requires Valid()
      modifies this`clients, this`walletMap, this`outbox
      ensures Valid()
      ensures m.Register? && FindClient(old(clients), conn).Some? ==>
        && clients == old(clients)[FindClient(old(clients), conn).value := ClientEntry(conn, m.wallet)]
        && walletMap == old(walletMap)[m.wallet := conn]
        && outbox == old(outbox)
      ensures fault <==> IsForward(m) && FindClient(old(clients), conn).None?
      ensures !m.Register? || FindClient(old(clients), conn).None? ==>
        clients == old(clients) && walletMap == old(walletMap)
      ensures IsForward(m) && !fault ==>
        outbox == old(outbox) + [Relay(old(walletMap), conn, m.to,
                                       Forwarded(m, old(clients)[FindClient(old(clients), conn).value].wallet))]
      ensures !IsForward(m) || fault ==> outbox == old(outbox)
    {
      fault := false;
      match m
      case Register(wallet) =>
        var found := FindClient(clients, conn);
        if found.Some? {
          RegisterKeepsValid(clients, walletMap, nextConn, found.value, wallet);
          clients := clients[found.value := ClientEntry(conn, wallet)];
          walletMap := walletMap[wallet := conn];
        }
      case UnknownType =>
      case _ =>
        var found := FindClient(clients, conn);
        if found.None? {
          return true;
        }
        var out := Forwarded(m, clients[found.value].wallet);
        outbox := outbox + [Relay(walletMap, conn, m.to, out)];
    }

    /** `ws.on('close')`: the client entry goes, and with it every table
        entry that points at the connection. */
    method OnClose(conn: Conn)
      requires Valid()
      modifies this`clients, this`walletMap
      ensures clients == Without(old(clients), conn)
      ensures walletMap == Unmapped(old(walletMap), conn)
      ensures Valid()
    {
      clients := Without(clients, conn);
      var keys := walletMap.Keys;
      ghost var before := walletMap;
      while keys != {}
        invariant clients == Without(old(clients), conn)
        invariant keys <= before.Keys
        invariant walletMap == KeepEntries(before, keys, conn)
        decreases keys
      {
        var w :| w in keys;
        KeepEntriesStep(before, keys, conn, w);
        if walletMap[w] == conn {
          walletMap := walletMap - {w};
        }
        keys := keys - {w};
      }
      assert walletMap == Unmapped(before, conn);
      CloseKeepsValid(old(clients), before, nextConn, conn);
    }
  }

  /** One entry per open connection, every connection number already
      handed out, and a table that names open connections only. */
  ghost predicate StateValid(clients: seq<ClientEntry>, walletMap: map<string, Conn>, nextConn: nat) {
    && DistinctConns(clients)
    && ConnsBelow(clients, nextConn)
    && (forall w :: w in walletMap ==> FindClient(clients, walletMap[w]).Some?)
  }

  /** A connection numbered past every earlier one keeps the entries distinct
      and every table entry pointing at an open connection. */
  lemma ConnectKeepsValid(clients: seq<ClientEntry>, walletMap: map<string, Conn>, nextConn: nat)
    requires StateValid(clients, walletMap, nextConn)
    ensures StateValid(clients + [ClientEntry(nextConn, "")], walletMap, nextConn + 1)
  {
    var c := clients + [ClientEntry(nextConn, "")];
    forall w | w in walletMap ensures FindClient(c, walletMap[w]).Some? {
      var i := FindClient(clients, walletMap[w]).value;
      assert c[i] == clients[i];
    }
  }

  /** A registration keeps one entry per connection and a table of live
      connections. */
  lemma RegisterKeepsValid(clients: seq<ClientEntry>, walletMap: map<string, Conn>, nextConn: nat, i: nat, wallet: string)
    requires StateValid(clients, walletMap, nextConn) && i < |clients|
    ensures StateValid(clients[i := ClientEntry(clients[i].conn, wallet)], walletMap[wallet := clients[i].conn], nextConn)
  {
    var c := clients[i := ClientEntry(clients[i].conn, wallet)];
    var m := walletMap[wallet := clients[i].conn];
    forall w | w in m ensures FindClient(c, m[w]).Some? {
      if w == wallet {
        assert c[i].conn == m[w];
      } else {
        var j := FindClient(clients, m[w]).value;
        assert c[j].conn == m[w];
      }
    }
  }

  predicate DistinctConns(clients: seq<ClientEntry>) {
    forall i, j :: 0 <= i < j < |clients| ==> clients[i].conn != clients[j].conn
  }

  predicate ConnsBelow(clients: seq<ClientEntry>, bound: nat) {
    forall k :: 0 <= k < |clients| ==> clients[k].conn < bound
  }

  /** An entry whose connection differs from all of a list's may go in front of it. */
  lemma DistinctCons(x: ClientEntry, rest: seq<ClientEntry>, bound: nat)
    requires DistinctConns(rest) && ConnsBelow(rest, bound) && x.conn < bound
    requires forall k :: 0 <= k < |rest| ==> rest[k].conn != x.conn
    ensures DistinctConns([x] + rest) && ConnsBelow([x] + rest, bound)
  {
    var c := [x] + rest;
    forall a, b | 0 <= a < b < |c| ensures c[a].conn != c[b].conn {
      assert c[b] == rest[b - 1];
      if 0 < a {
        assert c[a] == rest[a - 1];
      }
    }
    assert forall k :: 0 < k < |c| ==> c[k] == rest[k - 1];
  }

  /** Removing a connection from the list keeps the others distinct and
      already handed out. */
  lemma {:induction false} WithoutKeepsDistinct(clients: seq<ClientEntry>, nextConn: nat, conn: Conn)
    requires DistinctConns(clients) && ConnsBelow(clients, nextConn)
    ensures DistinctConns(Without(clients, conn)) && ConnsBelow(Without(clients, conn), nextConn)
    decreases |clients|
  {
    if clients != [] {
      var rest := clients[1..];
      assert forall k :: 0 <= k < |rest| ==> rest[k] == clients[k + 1];
      WithoutKeepsDistinct(rest, nextConn, conn);
      var r := Without(rest, conn);
      if clients[0].conn != conn {
        WithoutMembers(rest, conn);
        forall k | 0 <= k < |r| ensures r[k].conn != clients[0].conn {
          assert r[k] in rest;
        }
        DistinctCons(clients[0], r, nextConn);
        assert Without(clients, conn) == [clients[0]] + r;
      } else {
        assert Without(clients, conn) == r;
      }
    }
  }

  /** Closing a connection keeps one entry per connection and leaves the table
      naming only connections still open. */
  lemma CloseKeepsValid(clients: seq<ClientEntry>, walletMap: map<string, Conn>, nextConn: nat, conn: Conn)
    requires StateValid(clients, walletMap, nextConn)
    ensures StateValid(Without(clients, conn), Unmapped(walletMap, conn), nextConn)
  {
    var c := Without(clients, conn);
    WithoutKeepsDistinct(clients, nextConn, conn);
    WithoutMembers(clients, conn);
    var m := Unmapped(walletMap, conn);
    forall w | w in m ensures FindClient(c, m[w]).Some? {
      var j := FindClient(clients, m[w]).value;
      assert clients[j] in c;
    }
  }

  /** The table part-way through the deletion loop: entries still to visit
      are kept whatever they point at. */
  function KeepEntries(m: map<string, Conn>, keys: set<string>, conn: Conn): map<string, Conn> {
    map w | w in m && (w in keys || m[w] != conn) :: m[w]
  }

  /** One visit of the deletion loop. */
  lemma KeepEntriesStep(m: map<string, Conn>, keys: set<string>, conn: Conn, w: string)
    requires w in keys && w in m
    ensures var cur := KeepEntries(m, keys, conn);
      (if m[w] == conn then cur - {w} else cur) == KeepEntries(m, keys - {w}, conn)
  {
    var cur := KeepEntries(m, keys, conn);
    var next := if m[w] == conn then cur - {w} else cur;
    assert next.Keys == KeepEntries(m, keys - {w}, conn).Keys;
  }

  /** A second registration of the same wallet takes the table entry over:
      messages to that wallet now reach the newer connection, and closing the
      older one leaves the entry in place. */
  lemma ReRegisterOverrides(walletMap: map<string, Conn>, wallet: string, older: Conn, newer: Conn)
    requires older != newer
    ensures var m := walletMap[wallet := older][wallet := newer];
      && m[wallet] == newer
      && wallet in Unmapped(m, older) && Unmapped(m, older)[wallet] == newer
  {
  }

  /** Registering a new wallet does not drop the old one: the connection stays
      reachable under both names until it closes. */
  lemma OldWalletStillRoutes(walletMap: map<string, Conn>, conn: Conn, first: string, second: string, sender: Conn, out: Outbound)
    ensures var m := walletMap[first := conn][second := conn];
      Relay(m, sender, first, out) == Envelope(conn, out)
    ensures var m := walletMap[first := conn][second := conn];
      Relay(Unmapped(m, conn), sender, first, out) == Envelope(sender, ReceiverOffline(OfflineText(first)))
  {
  }
}
