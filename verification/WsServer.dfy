/** The websocket server's objects: the shared cache, the registry of clients,
    and delivery to all of them. */
module WsServer {
  import opened GoList
  import opened Handoff
  import opened HandoffProofs

  class WsClient {
    const user: string
    const start: int
    var msgLiveCh: seq<Msg>

    constructor (user: string, start: int)
      ensures this.user == user && this.start == start && msgLiveCh == []
    {
      this.user, this.start := user, start;
      msgLiveCh := [];
    }

    /** Completes once there is room in the channel. */
    method Delivery(m: Msg)
      modifies this
      ensures msgLiveCh == old(msgLiveCh) + [m]
    {
      msgLiveCh := msgLiveCh + [m];
    }
  }

  // ---------------------------------------------------------------------
  // The registry over the comings and goings of clients

  datatype Visit = Open(client: WsClient) | Close(client: WsClient)

  /** Visit `i` opened a client, no one has opened under its user since, and it
      has not closed since. */
  ghost predicate LastStanding(vs: seq<Visit>, i: int) {
    && 0 <= i < |vs| && vs[i].Open?
    && forall j | i < j < |vs| && vs[j].client.user == vs[i].client.user ::
         vs[j].Close? && vs[j].client != vs[i].client
  }

  /** The registry holds, under its user, exactly every client that came last
      for that user and has not closed. */
  ghost predicate Serves(vs: seq<Visit>, clients: map<string, WsClient>) {
    && (forall user | user in clients ::
          clients[user].user == user && exists i :: LastStanding(vs, i) && vs[i].client == clients[user])
    && (forall i | LastStanding(vs, i) ::
          vs[i].client.user in clients && clients[vs[i].client.user] == vs[i].client)
  }

  lemma StandingBefore(vs: seq<Visit>, v: Visit, i: int)
    ensures LastStanding(vs + [v], i) <==>
            if i == |vs| then v.Open?
            else LastStanding(vs, i) && (v.client.user == vs[i].client.user ==> v.Close? && v.client != vs[i].client)
  {
    var ws := vs + [v];
    assert forall j | 0 <= j < |vs| :: ws[j] == vs[j];
    if 0 <= i < |vs| && LastStanding(ws, i) {
      assert ws[|vs|] == v;
      assert forall j | i < j < |vs| :: ws[j].client.user == ws[i].client.user ==> ws[j].Close?;
    }
  }

  lemma UnderOwnUser(vs: seq<Visit>, clients: map<string, WsClient>)
    requires Serves(vs, clients)
    ensures forall c: WsClient :: c in clients.Values <==> c.user in clients && clients[c.user] == c
  {
  }

  /** A newcomer takes the place of its user's client. */
  lemma ServesOpen(vs: seq<Visit>, clients: map<string, WsClient>, c: WsClient)
    requires Serves(vs, clients)
    ensures Serves(vs + [Open(c)], clients[c.user := c])
  {
    var ws, now := vs + [Open(c)], clients[c.user := c];
    StandingBefore(vs, Open(c), |vs|);
    forall user | user in now
      ensures now[user].user == user && exists i :: LastStanding(ws, i) && ws[i].client == now[user]
    {
      if user == c.user {
        assert ws[|vs|].client == now[user];
      } else {
        var i :| LastStanding(vs, i) && vs[i].client == clients[user];
        StandingBefore(vs, Open(c), i);
        assert ws[i] == vs[i];
      }
    }
    forall i | LastStanding(ws, i)
      ensures ws[i].client.user in now && now[ws[i].client.user] == ws[i].client
    {
      StandingBefore(vs, Open(c), i);
      assert i < |vs| ==> ws[i] == vs[i];
    }
  }

  /** A client that closes goes if it is the one registered; a late close of a
      client that was kicked off changes nothing. */
  lemma ServesClose(vs: seq<Visit>, clients: map<string, WsClient>, c: WsClient)
    requires Serves(vs, clients)
    ensures Serves(vs + [Close(c)], if c in clients.Values then clients - {c.user} else clients)
  {
    var ws, now := vs + [Close(c)], if c in clients.Values then clients - {c.user} else clients;
    forall user | user in now
      ensures now[user].user == user && exists i :: LastStanding(ws, i) && ws[i].client == now[user]
    {
      var i :| LastStanding(vs, i) && vs[i].client == clients[user];
      assert clients[user] in clients.Values;
      StandingBefore(vs, Close(c), i);
      assert ws[i] == vs[i];
    }
    forall i | LastStanding(ws, i)
      ensures ws[i].client.user in now && now[ws[i].client.user] == ws[i].client
    {
      StandingBefore(vs, Close(c), i);
      assert ws[i] == vs[i];
    }
  }

  class WsServer {
    const cap: nat
    var dataQueue: seq<Msg>
    var clients: map<string, WsClient>
    /** All registrations and closes so far. */
    ghost var visits: seq<Visit>

    /** The registry is what the visits so far make it. */
    ghost predicate Valid()
      reads this
    {
      Serves(visits, clients)
    }

    constructor (cap: nat)
      ensures Valid() && this.cap == cap && dataQueue == [] && visits == []
    {
      this.cap := cap;
      dataQueue, clients, visits := [], map[], [];
    }

    /** Hands a message to every client, once each and in any order. */
    method DeliverAll(m: Msg)
      requires forall x, y | x in clients && y in clients && x != y :: clients[x] != clients[y]
      modifies clients.Values
      ensures forall name | name in clients :: clients[name].msgLiveCh == old(clients[name].msgLiveCh) + [m]
    {
      var todo := clients.Keys;
      while todo != {}
        invariant todo <= clients.Keys
        invariant forall name | name in todo :: clients[name].msgLiveCh == old(clients[name].msgLiveCh)
        invariant forall name | name in clients && name !in todo ::
                    clients[name].msgLiveCh == old(clients[name].msgLiveCh) + [m]
        decreases todo
      {
        var name :| name in todo;
        clients[name].Delivery(m);
        todo := todo - {name};
      }
    }

    /** Caches a message and hands it, once each and in any order, to exactly the
        clients that came last for their user and have not closed. */
    method Enqueue(m: Msg)
      requires Valid()
      modifies this`dataQueue, clients.Values
      ensures Valid() && dataQueue == Push(old(dataQueue), m, cap)
      ensures forall i | LastStanding(visits, i) ::
                visits[i].client.msgLiveCh == old(visits[i].client.msgLiveCh) + [m]
    {
      dataQueue := dataQueue + [m];
      if |dataQueue| > cap {
        dataQueue := dataQueue[1..];
      }
      DeliverAll(m);
    }

    /** A newcomer is served from now on; whoever was registered under its user
        no longer is, and all others are served as before. */
    method Register(client: WsClient)
      requires Valid()
      modifies this`clients, this`visits
      ensures Valid() && visits == old(visits) + [Open(client)]
      ensures client in clients.Values
      ensures forall c: WsClient | c != client ::
                c in clients.Values <==> c in old(clients.Values) && c.user != client.user
    {
      UnderOwnUser(visits, clients);
      ServesOpen(visits, clients, client);
      clients := clients[client.user := client];
      visits := visits + [Open(client)];
      UnderOwnUser(visits, clients);
    }

    /** Only the client that closes is taken off the registry. */
    method OnClose(client: WsClient)
      requires Valid()
      modifies this`clients, this`visits
      ensures Valid() && visits == old(visits) + [Close(client)]
      ensures forall c: WsClient :: c in clients.Values <==> c in old(clients.Values) && c != client
    {
      UnderOwnUser(visits, clients);
      ServesClose(visits, clients, client);
      visits := visits + [Close(client)];
      if client.user in clients {
        if clients[client.user] == client {
          clients := clients - {client.user};
        }
      }
      UnderOwnUser(visits, clients);
    }
  }

  /** The replayer's scan of the cache. */
  method CopySince(queue: seq<Msg>, start: int) returns (pms: seq<Msg>)
    ensures pms == Since(queue, start)
  {
    pms := [];
    for e := 0 to |queue|
      invariant pms == Since(queue[..e], start)
    {
      assert queue[..e + 1][..e] == queue[..e];
      if start <= queue[e].ts {
        pms := pms + [queue[e]];
      }
    }
    assert queue[..|queue|] == queue;
  }
}
