/**
 * The hub among its readers. A locked section is one step, and so is a fan-out; between a reader's
 * change and its announcement the lock is free, so any other client may register, join, leave,
 * unregister or be sent to. A scheduler proposes actions in any order; one whose reader is not there
 * yet does nothing.
 */
module HubRuns {
  import opened Collections
  import opened Hub

  datatype Action =
    | Open(c: Client)
    | Enter(c: Client, room: nat)
    | Exit(c: Client, room: nat)
    | Done(c: Client)
    | Tell(c: Client, msg: Message)
    | ToRoom(room: nat, body: nat)
    | ToAll(body: nat)
    | ToPlayer(player: nat, body: nat)

  /** A fan-out: whose announcement it was, if a reader's, and to whom it was offered. */
  datatype Sending = Sending(from: Option<Client>, msg: Message, targets: set<Client>)

  datatype World = World(
    live: set<Client>,
    rooms: map<Client, set<nat>>,
    owed: map<Client, set<Message>>,   // announcements a reader has yet to make
    seen: set<Client>,
    sent: seq<Sending>)

  const NOBODY := World({}, map[], map[], {}, [])

  /** A reader starts its next call only when its last one is over. */
  predicate Idle(w: World, c: Client) {
    c in w.live && c in w.rooms && c in w.owed && w.owed[c] == {}
  }

  function InRoom(w: World, room: nat): set<Client> {
    set d | d in w.live && d in w.rooms && room in w.rooms[d]
  }

  function OfPlayer(w: World, player: nat): set<Client> {
    set d | d in w.live && d.player == player
  }

  /** The rooms that keep a member when the client goes. */
  function StillPeopled(w: World, c: Client): set<nat>
    requires c in w.rooms
  {
    set room | room in w.rooms[c] && InRoom(w, room) - {c} != {}
  }

  function Farewell(c: Client, rooms: set<nat>): set<Message> {
    set room | room in rooms :: PlayerLeft(room, c.player)
  }

  function Say(w: World, from: Option<Client>, msg: Message, targets: set<Client>): World {
    w.(sent := w.sent + [Sending(from, msg, targets)])
  }

  predicate Ready(w: World, a: Action) {
    match a
    case Open(c) => c !in w.seen
    case Enter(c, _) => Idle(w, c)
    case Exit(c, _) => Idle(w, c)
    case Done(c) => Idle(w, c)
    case Tell(c, msg) => c in w.owed && msg in w.owed[c] && !msg.Broadcast?
    case _ => true
  }

  function Next(w: World, a: Action): World {
    if !Ready(w, a) then w else
    match a
    case Open(c) => w.(live := w.live + {c}, rooms := w.rooms[c := {}], owed := w.owed[c := {}], seen := w.seen + {c})
    case Enter(c, room) =>
      w.(rooms := w.rooms[c := w.rooms[c] + {room}], owed := w.owed[c := {PlayerJoined(room, c.player)}])
    case Exit(c, room) =>
      w.(rooms := w.rooms[c := w.rooms[c] - {room}], owed := w.owed[c := {PlayerLeft(room, c.player)}])
    case Done(c) => w.(live := w.live - {c}, owed := w.owed[c := Farewell(c, StillPeopled(w, c))])
    case Tell(c, msg) => Say(w, Some(c), msg, InRoom(w, msg.room)).(owed := w.owed[c := w.owed[c] - {msg}])
    case ToRoom(room, body) => Say(w, None, Broadcast(body), InRoom(w, room))
    case ToAll(body) => Say(w, None, Broadcast(body), w.live)
    case ToPlayer(player, body) => Say(w, None, Broadcast(body), OfPlayer(w, player))
  }

  function After(script: seq<Action>): World {
    if script == [] then NOBODY else Next(After(script[..|script| - 1]), script[|script| - 1])
  }

  /** Every client a script may register. */
  function Cast(script: seq<Action>): set<Client> {
    set i | 0 <= i < |script| && script[i].Open? :: script[i].c
  }

  /** How often a client was offered a message. */
  function Heard(sent: seq<Sending>, d: Client, m: Message): nat {
    if sent == [] then 0 else
    Heard(sent[..|sent| - 1], d, m) + (if sent[|sent| - 1].msg == m && d in sent[|sent| - 1].targets then 1 else 0)
  }

  /** The messages addressed to a client, in the order they were sent. */
  function Inbox(sent: seq<Sending>, d: Client): seq<Message> {
    if sent == [] then [] else
    Inbox(sent[..|sent| - 1], d) + (if d in sent[|sent| - 1].targets then [sent[|sent| - 1].msg] else [])
  }

  /** What of it a buffer nobody empties can hold. */
  function Fits(inbox: seq<Message>): seq<Message> {
    if |inbox| <= SEND_BUFFER then inbox else inbox[..SEND_BUFFER]
  }

  // --- The hub does what the script says ----------------------------------------------------------

  ghost predicate RoomsAgree(h: Hub, w: World)
    reads h`clients, h.clients`rooms
  {
    h.clients == w.live && forall c :: c in w.live ==> c in w.rooms && c.rooms == w.rooms[c]
  }

  /** Exactly the clients that came and went are closed; those yet to come are untouched. */
  ghost predicate ClosedAgree(w: World, all: set<Client>)
    reads all`closed, all`rooms
  {
    && w.live <= w.seen <= all
    && (forall c :: c in w.seen ==> (c.closed <==> c !in w.live))
    && (forall c :: c in all - w.seen ==> !c.closed && c.rooms == {})
  }

  ghost predicate OffersAgree(sent: seq<Sending>, all: set<Client>)
    reads all`offers
  {
    forall d, m :: d in all ==> d.offers[m] == Heard(sent, d, m)
  }

  ghost predicate SendsAgree(sent: seq<Sending>, all: set<Client>)
    reads all`send
  {
    forall d :: d in all ==> d.send == Fits(Inbox(sent, d))
  }

  predicate Shaped(w: World) {
    w.live <= w.seen && w.rooms.Keys == w.seen && w.owed.Keys == w.seen
  }

  ghost predicate Agrees(h: Hub, w: World, all: set<Client>)
    reads h, h.clients`rooms, h.clients`closed, all`closed, all`rooms, all`offers, all`send
  {
    && h.Valid() && Shaped(w) && RoomsAgree(h, w) && ClosedAgree(w, all)
    && OffersAgree(w.sent, all) && SendsAgree(w.sent, all)
  }

  method ActOpen(h: Hub, c: Client, ghost w: World, ghost all: set<Client>)
    requires Agrees(h, w, all) && c !in w.seen && c in all
    modifies h
    ensures Agrees(h, Next(w, Open(c)), all)
  {
    hide OffersAgree, SendsAgree;
    h.Register(c);
  }

  method ActEnter(h: Hub, c: Client, room: nat, ghost w: World, ghost all: set<Client>)
    requires Agrees(h, w, all) && Idle(w, c)
    modifies h`rooms, c`rooms
    ensures Agrees(h, Next(w, Enter(c, room)), all)
  {
    hide OffersAgree, SendsAgree;
    h.EnterRoom(c, room);
  }

  method ActExit(h: Hub, c: Client, room: nat, ghost w: World, ghost all: set<Client>)
    requires Agrees(h, w, all) && Idle(w, c)
    modifies h`rooms, c`rooms
    ensures Agrees(h, Next(w, Exit(c, room)), all)
  {
    hide OffersAgree, SendsAgree;
    h.ExitRoom(c, room);
  }

  lemma RoomIsListed(h: Hub, w: World, room: nat)
    requires h.Valid() && RoomsAgree(h, w)
    ensures h.Members(room) == InRoom(w, room)
  {
  }

  method ActDone(h: Hub, c: Client, ghost w: World, ghost all: set<Client>) returns (owed: set<Message>)
    requires Agrees(h, w, all) && Idle(w, c)
    modifies h, c`closed
    ensures Agrees(h, Next(w, Done(c)), all)
    ensures owed == Farewell(c, StillPeopled(w, c))
  {
    hide OffersAgree, SendsAgree;
    var left := h.Withdraw(c);
    owed := Farewell(c, left);
    forall room | room in c.rooms ensures room in h.rooms <==> InRoom(w, room) - {c} != {} {
      RoomAfter(h, w, c, room);
    }
    assert left == StillPeopled(w, c);
  }

  /** After a client has gone, a room is listed exactly when somebody else was in it. */
  lemma RoomAfter(h: Hub, w: World, c: Client, room: nat)
    requires h.Valid() && h.clients == w.live - {c} && forall d :: d in h.clients ==>
            d in w.rooms && d.rooms == w.rooms[d]
    ensures room in h.rooms <==> InRoom(w, room) - {c} != {}
  {
    if room in h.rooms {
      var d :| d in h.rooms[room];
      assert d in h.clients && room in d.rooms;
      assert d in w.live - {c} && d in InRoom(w, room);
    }
    if InRoom(w, room) - {c} != {} {
      var d :| d in InRoom(w, room) - {c};
      assert d in h.clients && room in d.rooms;
    }
  }

  lemma HeardMore(w: World, from: Option<Client>, msg: Message, targets: set<Client>, d: Client, m: Message)
    ensures Heard(Say(w, from, msg, targets).sent, d, m)
            == Heard(w.sent, d, m) + (if m == msg && d in targets then 1 else 0)
  {
    assert (w.sent + [Sending(from, msg, targets)])[..|w.sent|] == w.sent;
  }

  lemma InboxMore(w: World, from: Option<Client>, msg: Message, targets: set<Client>, d: Client)
    ensures Fits(Inbox(Say(w, from, msg, targets).sent, d))
         == if d in targets then Buffered(Fits(Inbox(w.sent, d)), msg) else Fits(Inbox(w.sent, d))
  {
    assert (w.sent + [Sending(from, msg, targets)])[..|w.sent|] == w.sent;
  }

  ghost function Sends(all: set<Client>): map<Client, seq<Message>>
    reads all`send
  {
    map d | d in all :: d.send
  }

  lemma BufferedAgrees(w: World, from: Option<Client>, msg: Message, targets: set<Client>, all: set<Client>,
                       before: map<Client, seq<Message>>)
    requires before.Keys == all && forall d :: d in all ==> before[d] == Fits(Inbox(w.sent, d))
    requires forall d :: d in all ==> d.send == if d in targets then Buffered(before[d], msg) else before[d]
    ensures SendsAgree(Say(w, from, msg, targets).sent, all)
  {
    hide Inbox, Fits, Buffered;
    forall d | d in all ensures d.send == Fits(Inbox(Say(w, from, msg, targets).sent, d)) {
      InboxMore(w, from, msg, targets, d);
    }
  }

  ghost function Offers(all: set<Client>): map<Client, multiset<Message>>
    reads all`offers
  {
    map d | d in all :: d.offers
  }

  lemma OfferedAgrees(w: World, from: Option<Client>, msg: Message, targets: set<Client>, all: set<Client>,
                      before: map<Client, multiset<Message>>)
    requires before.Keys == all && forall d, m :: d in all ==> before[d][m] == Heard(w.sent, d, m)
    requires forall d :: d in all ==> d.offers == before[d] + (if d in targets then multiset{msg} else multiset{})
    ensures OffersAgree(Say(w, from, msg, targets).sent, all)
  {
    forall d, m | d in all ensures d.offers[m] == Heard(Say(w, from, msg, targets).sent, d, m) {
      HeardMore(w, from, msg, targets, d, m);
    }
  }

  method SayRoom(h: Hub, room: nat, msg: Message, ghost from: Option<Client>, ghost w: World, ghost all: set<Client>)
    requires Agrees(h, w, all)
    modifies h.clients`send, h.clients`offers
    ensures Agrees(h, Say(w, from, msg, InRoom(w, room)), all)
  {
    ghost var before, sends := Offers(all), Sends(all);
    RoomIsListed(h, w, room);
    h.BroadcastToRoom(room, msg);
    OfferedAgrees(w, from, msg, InRoom(w, room), all, before);
    BufferedAgrees(w, from, msg, InRoom(w, room), all, sends);
  }

  method SayAll(h: Hub, msg: Message, ghost w: World, ghost all: set<Client>)
    requires Agrees(h, w, all)
    modifies h.clients`send, h.clients`offers
    ensures Agrees(h, Say(w, None, msg, w.live), all)
  {
    ghost var before, sends := Offers(all), Sends(all);
    h.BroadcastAll(msg);
    OfferedAgrees(w, None, msg, w.live, all, before);
    BufferedAgrees(w, None, msg, w.live, all, sends);
  }

  method SayPlayer(h: Hub, player: nat, msg: Message, ghost w: World, ghost all: set<Client>)
    requires Agrees(h, w, all)
    modifies h.clients`send, h.clients`offers
    ensures Agrees(h, Say(w, None, msg, OfPlayer(w, player)), all)
  {
    ghost var before, sends := Offers(all), Sends(all);
    assert h.ClientsOf(player) == OfPlayer(w, player);
    h.SendToPlayer(player, msg);
    OfferedAgrees(w, None, msg, OfPlayer(w, player), all, before);
    BufferedAgrees(w, None, msg, OfPlayer(w, player), all, sends);
  }

  /**
   * Any interleaving of the readers' locked sections and fan-outs: no step sends on or closes a closed
   * channel, the indexes agree throughout, exactly the clients that have left are closed, each client was
   * offered each message once for every fan-out addressed to it at that moment, and its buffer holds the
   * first of those messages, as many as fit, in the order they were sent.
   */
  method RunScript(h: Hub, script: seq<Action>)
    requires h.Valid() && h.clients == {}
    requires forall c :: c in Cast(script) ==> !c.closed && c.rooms == {} && c.send == [] && c.offers == multiset{}
    modifies h, Cast(script)
    ensures Agrees(h, After(script), Cast(script))
    ensures forall d :: d in Cast(script) ==>
              var inbox := Inbox(After(script).sent, d);
              d.send == if |inbox| < SEND_BUFFER then inbox else inbox[..SEND_BUFFER]
  {
    var seen: set<Client>, owed: map<Client, set<Message>> := {}, map[];
    ghost var w, all := NOBODY, Cast(script);
    for i := 0 to |script|
      invariant w == After(script[..i]) && seen == w.seen && owed == w.owed && Agrees(h, w, all)
    {
      assert script[..i + 1][..i] == script[..i];
      seen, owed := Act(h, script[i], seen, owed, w, all);
      w := Next(w, script[i]);
    }
    assert script[..|script|] == script;
  }

  method Act(h: Hub, a: Action, seen: set<Client>, owed: map<Client, set<Message>>, ghost w: World,
             ghost all: set<Client>)
    returns (seen': set<Client>, owed': map<Client, set<Message>>)
    requires Agrees(h, w, all) && seen == w.seen && owed == w.owed && (a.Open? ==> a.c in all)
    modifies h, all
    ensures Agrees(h, Next(w, a), all) && seen' == Next(w, a).seen && owed' == Next(w, a).owed
  {
    if a.Open? || a.Enter? || a.Exit? || a.Done? {
      seen', owed' := Move(h, a, seen, owed, w, all);
    } else {
      seen' := seen;
      owed' := Send(h, a, owed, w, all);
    }
  }

  /** A reader's locked section, if it is there for it. */
  method Move(h: Hub, a: Action, seen: set<Client>, owed: map<Client, set<Message>>, ghost w: World,
              ghost all: set<Client>)
    returns (seen': set<Client>, owed': map<Client, set<Message>>)
    requires Agrees(h, w, all) && seen == w.seen && owed == w.owed && (a.Open? ==> a.c in all)
    requires a.Open? || a.Enter? || a.Exit? || a.Done?
    modifies h, all
    ensures Agrees(h, Next(w, a), all) && seen' == Next(w, a).seen && owed' == Next(w, a).owed
  {
    hide OffersAgree, SendsAgree, StillPeopled, Farewell;
    seen', owed' := seen, owed;
    match a
    case Open(c) =>
      if c !in seen {
        ActOpen(h, c, w, all);
        seen', owed' := seen + {c}, owed[c := {}];
      }
    case Enter(c, room) =>
      if c in h.clients && owed[c] == {} {
        ActEnter(h, c, room, w, all);
        owed' := owed[c := {PlayerJoined(room, c.player)}];
      }
    case Exit(c, room) =>
      if c in h.clients && owed[c] == {} {
        ActExit(h, c, room, w, all);
        owed' := owed[c := {PlayerLeft(room, c.player)}];
      }
    case Done(c) =>
      if c in h.clients && owed[c] == {} {
        var left := ActDone(h, c, w, all);
        owed' := owed[c := left];
      }
  }

  /** A fan-out; a reader's announcement only if it is owed. */
  method Send(h: Hub, a: Action, owed: map<Client, set<Message>>, ghost w: World, ghost all: set<Client>)
    returns (owed': map<Client, set<Message>>)
    requires Agrees(h, w, all) && owed == w.owed && (a.Tell? || a.ToRoom? || a.ToAll? || a.ToPlayer?)
    modifies h, all
    ensures Agrees(h, Next(w, a), all) && w.seen == Next(w, a).seen && owed' == Next(w, a).owed
  {
    hide OffersAgree, SendsAgree, InRoom, OfPlayer;
    owed' := owed;
    match a
    case Tell(c, msg) =>
      if c in owed && msg in owed[c] && !msg.Broadcast? {
        SayRoom(h, msg.room, msg, Some(c), w, all);
        owed' := owed[c := owed[c] - {msg}];
      }
    case ToRoom(room, body) => SayRoom(h, room, Broadcast(body), None, w, all);
    case ToAll(body) => SayAll(h, Broadcast(body), w, all);
    case ToPlayer(player, body) => SayPlayer(h, player, Broadcast(body), w, all);
  }

  // --- Every change is announced --------------------------------------------------------------------

  /** Announcements of a message that a reader's changes call for. */
  function Promised(script: seq<Action>, c: Client, m: Message): nat {
    if script == [] then 0 else
    var w, a := After(script[..|script| - 1]), script[|script| - 1];
    Promised(script[..|script| - 1], c, m) + (if m in Calls(w, a, c) then 1 else 0)
  }

  /** What an action commits a reader to say. */
  function Calls(w: World, a: Action, c: Client): set<Message> {
    if !Ready(w, a) then {} else
    match a
    case Enter(d, room) => if d == c then {PlayerJoined(room, c.player)} else {}
    case Exit(d, room) => if d == c then {PlayerLeft(room, c.player)} else {}
    case Done(d) => if d == c then Farewell(c, StillPeopled(w, c)) else {}
    case _ => {}
  }

  /** Announcements of a message that a reader has made. */
  function Told(sent: seq<Sending>, c: Client, m: Message): nat {
    if sent == [] then 0 else
    Told(sent[..|sent| - 1], c, m) + (if sent[|sent| - 1].from == Some(c) && sent[|sent| - 1].msg == m then 1 else 0)
  }

  lemma ToldMore(w: World, from: Option<Client>, msg: Message, targets: set<Client>, c: Client, m: Message)
    ensures Told(Say(w, from, msg, targets).sent, c, m)
            == Told(w.sent, c, m) + (if from == Some(c) && msg == m then 1 else 0)
  {
    assert (w.sent + [Sending(from, msg, targets)])[..|w.sent|] == w.sent;
  }

  function Owes(w: World, c: Client, m: Message): nat {
    if c in w.owed && m in w.owed[c] then 1 else 0
  }

  lemma ToldStep(w: World, a: Action, c: Client, m: Message)
    requires Shaped(w)
    ensures Shaped(Next(w, a))
    ensures Told(Next(w, a).sent, c, m) + Owes(Next(w, a), c, m)
         == Told(w.sent, c, m) + Owes(w, c, m) + (if m in Calls(w, a, c) then 1 else 0)
  {
    hide Told, InRoom, OfPlayer, Farewell, StillPeopled;
    match a
    case Tell(d, msg) => if Ready(w, a) { ToldMore(w, Some(d), msg, InRoom(w, msg.room), c, m); }
    case ToRoom(room, body) => ToldMore(w, None, Broadcast(body), InRoom(w, room), c, m);
    case ToAll(body) => ToldMore(w, None, Broadcast(body), w.live, c, m);
    case ToPlayer(player, body) => ToldMore(w, None, Broadcast(body), OfPlayer(w, player), c, m);
    case _ =>
  }

  /** In every run each change a reader made has been announced exactly once or is about to be. */
  lemma {:induction false} ToldOrOwed(script: seq<Action>, c: Client, m: Message)
    ensures Shaped(After(script))
    ensures Promised(script, c, m) == Told(After(script).sent, c, m) + Owes(After(script), c, m)
  {
    if script != [] {
      hide Next, Calls, Told, Owes;
      ToldOrOwed(script[..|script| - 1], c, m);
      ToldStep(After(script[..|script| - 1]), script[|script| - 1], c, m);
    } else {
      assert Told([], c, m) == 0;
    }
  }

  /** How often a reader entered a room. */
  function Entries(script: seq<Action>, c: Client, room: nat): nat {
    if script == [] then 0 else
    var front := script[..|script| - 1];
    Entries(front, c, room) + (if script[|script| - 1] == Enter(c, room) && Idle(After(front), c) then 1 else 0)
  }

  /** A reader's action takes it out of a room: by itself, or by going while others stay in it. */
  ghost predicate Departs(w: World, a: Action, c: Client, room: nat) {
    && Idle(w, c)
    && (|| a == Exit(c, room)
        || (a == Done(c) && room in w.rooms[c]
            && exists d :: d in w.live && d != c && d in w.rooms && room in w.rooms[d]))
  }

  ghost function Exits(script: seq<Action>, c: Client, room: nat): nat {
    if script == [] then 0 else
    var front := script[..|script| - 1];
    Exits(front, c, room) + (if Departs(After(front), script[|script| - 1], c, room) then 1 else 0)
  }

  lemma PeopledBy(w: World, c: Client, room: nat)
    requires c in w.rooms
    ensures room in StillPeopled(w, c)
       <==> room in w.rooms[c] && exists d :: d in w.live && d != c && d in w.rooms && room in w.rooms[d]
  {
    if d :| d in w.live && d != c && d in w.rooms && room in w.rooms[d] { assert d in InRoom(w, room) - {c}; }
    if InRoom(w, room) - {c} != {} { var d :| d in InRoom(w, room) - {c}; }
  }

  lemma CallsMoves(w: World, a: Action, c: Client, room: nat)
    ensures PlayerJoined(room, c.player) in Calls(w, a, c) <==> a == Enter(c, room) && Idle(w, c)
    ensures PlayerLeft(room, c.player) in Calls(w, a, c) <==> Departs(w, a, c, room)
  {
    hide InRoom, StillPeopled;
    if Idle(w, c) { PeopledBy(w, c, room); }
  }

  lemma {:induction false} PromisedMoves(script: seq<Action>, c: Client, room: nat)
    ensures Promised(script, c, PlayerJoined(room, c.player)) == Entries(script, c, room)
    ensures Promised(script, c, PlayerLeft(room, c.player)) == Exits(script, c, room)
  {
    if script != [] {
      hide Next, Calls, Departs, Idle;
      PromisedMoves(script[..|script| - 1], c, room);
      CallsMoves(After(script[..|script| - 1]), script[|script| - 1], c, room);
    }
  }

  /**
   * In every run a reader has told of each room it entered as often as it entered it, and of each room it
   * left, or abandoned to others by going, as often as it left it, but for what it is about to tell.
   */
  lemma MovesAreTold(script: seq<Action>, c: Client, room: nat)
    ensures var w, joined, left := After(script), PlayerJoined(room, c.player), PlayerLeft(room, c.player);
            && Entries(script, c, room) == Told(w.sent, c, joined) + Owes(w, c, joined)
            && Exits(script, c, room) == Told(w.sent, c, left) + Owes(w, c, left)
  {
    hide After, Promised, Entries, Exits, Told, Owes;
    PromisedMoves(script, c, room);
    ToldOrOwed(script, c, PlayerJoined(room, c.player));
    ToldOrOwed(script, c, PlayerLeft(room, c.player));
  }

  lemma SaysOne(w: World, a: Action)
    ensures w.sent <= Next(w, a).sent && |Next(w, a).sent| <= |w.sent| + 1
    ensures |Next(w, a).sent| > |w.sent| ==> Next(w, a).sent[|w.sent|].targets <= w.live
  {
  }

  /** Nobody who has left or has yet to come is ever addressed. */
  lemma {:induction false} OnlyLiveAddressed(script: seq<Action>, k: nat)
    requires k < |After(script).sent|
    ensures exists i :: 0 <= i < |script| && After(script[..i]).sent == After(script).sent[..k]
                     && After(script).sent[k].targets <= After(script[..i]).live
  {
    var front, a := script[..|script| - 1], script[|script| - 1];
    var w := After(front);
    SaysOne(w, a);
    hide Next;
    if k < |w.sent| {
      OnlyLiveAddressed(front, k);
      var i :| 0 <= i < |front| && After(front[..i]).sent == w.sent[..k] && w.sent[k].targets <= After(front[..i]).live;
      assert front[..i] == script[..i] && Next(w, a).sent[..k] == w.sent[..k];
    } else {
      assert script[..|front|] == front;
    }
  }
}
