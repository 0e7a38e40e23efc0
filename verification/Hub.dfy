/** The WebSocket hub: three indexes over live clients, and fan-out to their send buffers. */
module Hub {
  import opened Collections

  const SEND_BUFFER := 64

  datatype Message =
    | PlayerJoined(room: nat, player: nat)
    | PlayerLeft(room: nat, player: nat)
    | Broadcast(body: nat)

  datatype Notice = Up(player: nat) | Down(player: nat)

  /** A bounded buffer keeps a message only while it has room. */
  function Buffered(send: seq<Message>, msg: Message): seq<Message> {
    if |send| < SEND_BUFFER then send + [msg] else send
  }

  /** How often a player's leaving is told: once per room in question. */
  function Farewells(m: Message, player: nat, rooms: set<nat>): nat {
    if m.PlayerLeft? && m.player == player && m.room in rooms then 1 else 0
  }

  /** Why a connection was told to close; both carry code 1008. */
  datatype Reason = TokenExpired | SessionRevoked

  class Client {
    const player: nat
    const session: nat
    const expires: Option<int>   // None: the token has no expiry
    const connected: bool        // has a socket to close
    var send: seq<Message>
    var closed: bool
    var rooms: set<nat>
    var closes: seq<Reason>               // close requests, oldest first
    ghost var offers: multiset<Message>   // every message offered, kept or dropped

    constructor (player: nat, session: nat, expires: Option<int>, connected: bool)
      ensures this.player == player && this.session == session && this.expires == expires && this.connected == connected
      ensures send == [] && !closed && rooms == {} && closes == [] && offers == multiset{}
    {
      this.player, this.session, this.expires, this.connected := player, session, expires, connected;
      send, closed, rooms, closes, offers := [], false, {}, [], multiset{};
    }

    method CloseWith(reason: Reason)
      requires connected
      modifies this`closes
      ensures closes == old(closes) + [reason]
    {
      closes := closes + [reason];
    }

    /** A send on a closed channel would panic, so the caller must know it is open. */
    method TrySend(msg: Message)
      requires !closed
      modifies this`send, this`offers
      ensures send == Buffered(old(send), msg) && offers == old(offers) + multiset{msg}
      ensures |old(send)| < SEND_BUFFER ==> send == old(send) + [msg]
      ensures |old(send)| >= SEND_BUFFER ==> send == old(send)
    {
      if |send| < SEND_BUFFER { send := send + [msg]; }
      offers := offers + multiset{msg};
    }

    /** So would closing a channel twice. */
    method CloseSend()
      requires !closed
      modifies this`closed
      ensures closed
    {
      closed := true;
    }
  }

  /** The rooms after a client was taken out of some it is in; emptied ones go. */
  function Without(rooms: map<nat, set<Client>>, c: Client, left: set<nat>): map<nat, set<Client>> {
    map r | r in rooms && (r in left ==> rooms[r] - {c} != {}) :: if r in left then rooms[r] - {c} else rooms[r]
  }

  lemma WithoutNone(rooms: map<nat, set<Client>>, c: Client)
    ensures Without(rooms, c, {}) == rooms
  {
  }

  lemma WithoutOne(rooms: map<nat, set<Client>>, c: Client, left: set<nat>, r: nat)
    requires r in rooms && r !in left
    ensures var before, members := Without(rooms, c, left), rooms[r] - {c};
            && r in before && before[r] == rooms[r]
            && Without(rooms, c, left + {r}) == (if members == {} then before - {r} else before[r := members])
    ensures forall q :: q in left && q in rooms ==>
            (q in Without(rooms, c, left) <==> q in Without(rooms, c, left + {r}))
  {
  }

  class Hub {
    var clients: set<Client>
    var byPlayer: map<nat, set<Client>>
    var rooms: map<nat, set<Client>>
    var notices: seq<Notice>

    ghost predicate PlayersIndexed()
      reads this`clients, this`byPlayer
    {
      && (forall p :: p in byPlayer ==> byPlayer[p] != {})
      && (forall p, c :: p in byPlayer && c in byPlayer[p] ==> c in clients && c.player == p)
      && (forall c :: c in clients ==> c.player in byPlayer && c in byPlayer[c.player])
    }

    ghost predicate RoomsIndexed()
      reads this`clients, this`rooms, clients`rooms
    {
      && (forall r :: r in rooms ==> rooms[r] != {})
      && (forall r, c :: r in rooms && c in rooms[r] ==> c in clients && r in c.rooms)
      && (forall c, r :: c in clients && r in c.rooms ==> r in rooms && c in rooms[r])
    }

    ghost predicate AllOpen()
      reads this`clients, clients`closed
    {
      forall c :: c in clients ==> !c.closed
    }

    /** The indexes agree, hold no empty entry, and list only clients whose channel is open. */
    ghost predicate Valid()
      reads this, clients`rooms, clients`closed
    {
      PlayersIndexed() && RoomsIndexed() && AllOpen()
    }

    constructor ()
      ensures Valid() && clients == {} && byPlayer == map[] && rooms == map[] && notices == []
    {
      clients, byPlayer, rooms, notices := {}, map[], map[], [];
    }

    method Register(c: Client)
      requires Valid() && c !in clients && !c.closed && c.rooms == {}
      modifies this
      ensures Valid() && clients == old(clients) + {c} && rooms == old(rooms)
      ensures notices == old(notices) + [Up(c.player)]
    {
      hide PlayersIndexed;
      AddPlayer(c);
      notices := notices + [Up(c.player)];
    }

    method AddPlayer(c: Client)
      requires PlayersIndexed() && c !in clients
      modifies this`clients, this`byPlayer
      ensures PlayersIndexed() && clients == old(clients) + {c}
    {
      clients := clients + {c};
      if c.player !in byPlayer {
        byPlayer := byPlayer[c.player := {}];
      }
      byPlayer := byPlayer[c.player := byPlayer[c.player] + {c}];
    }

    method DropPlayer(c: Client)
      requires PlayersIndexed() && c in clients
      modifies this`clients, this`byPlayer
      ensures PlayersIndexed() && clients == old(clients) - {c}
    {
      clients := clients - {c};
      var others := byPlayer[c.player] - {c};
      assert forall d :: d in byPlayer[c.player] && d != c ==> d in others;
      byPlayer := if others == {} then byPlayer - {c.player} else byPlayer[c.player := others];
    }

    /** Offers a message once to each target and to nobody else. */
    method OfferAll(targets: set<Client>, msg: Message)
      requires forall c :: c in targets ==> !c.closed
      modifies targets`send, targets`offers
      ensures forall c :: c in targets ==>
                c.send == Buffered(old(c.send), msg) && c.offers == old(c.offers) + multiset{msg}
    {
      var todo := targets;
      while todo != {}
        invariant todo <= targets
        invariant forall c :: c in todo ==> c.send == old(c.send) && c.offers == old(c.offers)
        invariant forall c :: c in targets - todo ==>
                    c.send == Buffered(old(c.send), msg) && c.offers == old(c.offers) + multiset{msg}
        decreases todo
      {
        var c :| c in todo;
        c.TrySend(msg);
        todo := todo - {c};
      }
    }

    ghost function Members(room: nat): set<Client>
      reads this
    {
      if room in rooms then rooms[room] else {}
    }

    method BroadcastToRoom(room: nat, msg: Message)
      requires Valid()
      modifies Members(room)`send, Members(room)`offers
      ensures Valid()
      ensures forall c :: c in clients && room in c.rooms ==>
                c.send == Buffered(old(c.send), msg) && c.offers == old(c.offers) + multiset{msg}
    {
      if room in rooms { OfferAll(rooms[room], msg); }
    }

    method BroadcastAll(msg: Message)
      requires Valid()
      modifies clients`send, clients`offers
      ensures Valid()
      ensures forall c :: c in clients ==>
                c.send == Buffered(old(c.send), msg) && c.offers == old(c.offers) + multiset{msg}
    {
      OfferAll(clients, msg);
    }

    ghost function ClientsOf(player: nat): set<Client>
      reads this
    {
      if player in byPlayer then byPlayer[player] else {}
    }

    method SendToPlayer(player: nat, msg: Message)
      requires Valid()
      modifies ClientsOf(player)`send, ClientsOf(player)`offers
      ensures Valid()
      ensures forall c :: c in clients && c.player == player ==>
                c.send == Buffered(old(c.send), msg) && c.offers == old(c.offers) + multiset{msg}
    {
      if player in byPlayer { OfferAll(byPlayer[player], msg); }
    }

    /** The locked part of joining. */
    method EnterRoom(c: Client, room: nat)
      requires Valid() && c in clients
      modifies this`rooms, c`rooms
      ensures Valid() && c.rooms == old(c.rooms) + {room}
    {
      hide PlayersIndexed, AllOpen;
      if room !in rooms {
        rooms := rooms[room := {}];
      }
      rooms := rooms[room := rooms[room] + {c}];
      c.rooms := c.rooms + {room};
    }

    /** Adds a live client to a room and, undisturbed, tells everyone in it, the newcomer included. */
    method Join(c: Client, room: nat)
      requires Valid() && c in clients
      modifies this`rooms, c`rooms, clients`send, clients`offers
      ensures Valid() && clients == old(clients) && c.rooms == old(c.rooms) + {room}
      ensures forall d :: d in clients ==>
                d.offers == old(d.offers)
                  + (if d == c || room in d.rooms then multiset{PlayerJoined(room, c.player)} else multiset{})
    {
      EnterRoom(c, room);
      hide PlayersIndexed, AllOpen;
      BroadcastToRoom(room, PlayerJoined(room, c.player));
    }

    /** The locked part of leaving, from a room joined or not. */
    method ExitRoom(c: Client, room: nat)
      requires Valid() && c in clients
      modifies this`rooms, c`rooms
      ensures Valid() && c.rooms == old(c.rooms) - {room}
    {
      hide PlayersIndexed, AllOpen;
      c.rooms := c.rooms - {room};
      if room in rooms {
        var members := rooms[room] - {c};
        assert forall d :: d in rooms[room] && d != c ==> d in members;
        rooms := if members == {} then rooms - {room} else rooms[room := members];
      }
    }

    /** Removes a live client from a room and, undisturbed, tells those who stay. */
    method Leave(c: Client, room: nat)
      requires Valid() && c in clients
      modifies this`rooms, c`rooms, clients`send, clients`offers
      ensures Valid() && clients == old(clients) && c.rooms == old(c.rooms) - {room}
      ensures forall d :: d in clients ==>
                d.offers == old(d.offers)
                  + (if d != c && room in d.rooms then multiset{PlayerLeft(room, c.player)} else multiset{})
    {
      ExitRoom(c, room);
      hide PlayersIndexed, AllOpen;
      BroadcastToRoom(room, PlayerLeft(room, c.player));
    }

    /** The locked part of unregistering: drop the client from every index and close its channel. */
    method Detach(c: Client) returns (left: set<nat>)
      requires Valid() && c in clients
      modifies this`clients, this`byPlayer, this`rooms, c`closed
      ensures Valid() && clients == old(clients) - {c} && c.closed
      ensures left == set r | r in c.rooms && r in rooms
    {
      hide PlayersIndexed;
      DropPlayer(c);
      left := DropFromRooms(c);
      c.CloseSend();
    }

    /** Unregistering up to where the lock is free again and the disconnect notice is on its way. */
    method Withdraw(c: Client) returns (left: set<nat>)
      requires Valid() && c in clients
      modifies this, c`closed
      ensures Valid() && clients == old(clients) - {c} && c.closed
      ensures left == set r | r in c.rooms && r in rooms
      ensures notices == old(notices) + [Down(c.player)]
    {
      left := Detach(c);
      hide PlayersIndexed, RoomsIndexed, AllOpen;
      notices := notices + [Down(c.player)];
    }

    /** Takes a client out of the rooms it is in; returns those that still have members. */
    method DropFromRooms(c: Client) returns (left: set<nat>)
      requires forall r :: r in c.rooms ==> r in rooms && c in rooms[r]
      modifies this`rooms
      ensures rooms == Without(old(rooms), c, c.rooms)
      ensures left == set r | r in c.rooms && r in rooms
    {
      hide Without;
      left := {};
      var todo, done := c.rooms, {};
      WithoutNone(rooms, c);
      while todo != {}
        invariant todo !! done && todo + done == c.rooms
        invariant rooms == Without(old(rooms), c, done)
        invariant left == set r | r in done && r in rooms
        decreases todo
      {
        var r :| r in todo;
        WithoutOne(old(rooms), c, done, r);
        var members := rooms[r] - {c};
        if members == {} {
          rooms := rooms - {r};
        } else {
          rooms := rooms[r := members];
          left := left + {r};
        }
        todo, done := todo - {r}, done + {r};
      }
      assert done == c.rooms;
    }

    /**
     * Unregistering a registered client closes its channel once, withdraws it from every index, and,
     * undisturbed, tells each remaining member of each of its rooms once. An unregistered client is left alone.
     * The presence notice goes out either way.
     */
    method Unregister(c: Client)
      requires Valid()
      modifies this, c`closed, clients`send, clients`offers
      ensures Valid() && clients == old(clients) - {c}
      ensures notices == old(notices) + [Down(c.player)]
      ensures old(c in clients) ==> c.closed
      ensures old(c !in clients) ==> c.closed == old(c.closed) && rooms == old(rooms) && byPlayer == old(byPlayer)
      ensures forall d, m :: d in clients ==>
                d.offers[m] == old(d.offers[m])
                  + (if old(c in clients) && m.PlayerLeft? && m.player == c.player && m.room in c.rooms * d.rooms
                     then 1 else 0)
    {
      var left := {};
      if c in clients {
        left := Withdraw(c);
        assert forall d, r :: d in clients && r in d.rooms ==> r in rooms;
        assert forall d :: d in clients ==> left * d.rooms == c.rooms * d.rooms;
      } else {
        assert clients - {c} == clients;
        notices := notices + [Down(c.player)];
      }
      AnnounceLeft(left, c.player);
    }

    method AnnounceLeft(left: set<nat>, player: nat)
      requires Valid()
      modifies clients`send, clients`offers
      ensures Valid()
      ensures forall d, m :: d in clients ==>
                d.offers[m] == old(d.offers[m]) + Farewells(m, player, left * d.rooms)
    {
      var todo := left;
      while todo != {}
        invariant todo <= left
        invariant forall d, m :: d in clients ==>
                    d.offers[m] == old(d.offers[m]) + Farewells(m, player, (left - todo) * d.rooms)
        decreases todo
      {
        var r :| r in todo;
        BroadcastToRoom(r, PlayerLeft(r, player));
        todo := todo - {r};
      }
    }

    /** The distinct players with a live connection here, each listed once. */
    method ConnectedPlayers() returns (ids: seq<nat>)
      requires Valid()
      ensures Distinct(ids) && forall p :: p in ids <==> exists c :: c in clients && c.player == p
    {
      ids := [];
      var todo := byPlayer.Keys;
      while todo != {}
        invariant todo <= byPlayer.Keys && Distinct(ids) && Elements(ids) == byPlayer.Keys - todo
        decreases todo
      {
        var p :| p in todo;
        assert p !in Elements(ids);
        assert Elements(ids + [p]) == Elements(ids) + {p};
        ids := ids + [p];
        todo := todo - {p};
      }
      forall p ensures p in ids <==> exists c :: c in clients && c.player == p {
        assert p in ids <==> p in Elements(ids);
        if p in byPlayer { var c :| c in byPlayer[p]; assert c in clients && c.player == p; }
      }
    }
  }
}
