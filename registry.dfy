/** Option, the usual stand-in for a dictionary lookup that may miss. */
module Wrappers {
  datatype Option<+T> = None | Some(value: T)
}

/**
 The relay's three tables and the records they hold, as values: the
 connection registry (connection id to session id), the session store and
 the game store. Each state-changing step of the relay is given here as a
 function from the old tables to the new ones, with the properties the
 relay promises stated in its ensures clauses.
 */
module Registry {
  import opened Wrappers

  /** A transport connection id; the transport never hands out an empty one. */
  type ConnId = s: string | s != "" witness "c"
  /** A session id chosen by the client, or the connection id by default. */
  type SessionId = string
  /** A game's key: the game-server address the client names. */
  type Address = string
  /** A clock reading, taken by the caller. */
  type Time = nat
  /** Client-supplied payload contents (names, cells, update data), opaque to the relay. */
  type Value(==)

  /** An inbound message, by its `type` field. */
  datatype Message =
    | Register(id: Option<SessionId>)
    | Join(serverAddress: Address, name: Value, cells: Value)
    | Update(updateType: string, updateData: Value)
      /** any other `type`: the router only records it */
    | Unknown(kind: string)

  /** A session's weak reference to the game it is in. */
  datatype GameRef = GameRef(serverAddress: Address, name: Value)

  datatype Session = Session(
    id: SessionId,
    spark: Option<ConnId>,
    lastMessage: Message,
    timestamp: Time,
    connected: Time,
    game: Option<GameRef>)

  /** A game's projection of one member: the join record, or the member's own snapshot. */
  datatype Member =
    | Joined(id: SessionId, name: Value, cells: Value)
    | Snapshot(id: SessionId, state: Value)

  datatype Game = Game(serverAddress: Address, members: map<SessionId, Member>)

  /** An outbound message. */
  datatype Payload =
    | RegisterAck(id: SessionId)
    | GameUpdate(game: Game)
    | BlobsUpdate(updateData: Value, updateSource: SessionId)

  /** One write to one connection. */
  datatype Write = Write(to: ConnId, payload: Payload)

  datatype Tables = Tables(
    sparks: map<ConnId, SessionId>,
    sessions: map<SessionId, Session>,
    games: map<Address, Game>)

  const Empty := Tables(map[], map[], map[])

  /**
   The consistency the tables keep: records sit under their own ids, every
   registry entry points at a session bound to that very connection, every
   stored session has a connection, a session's game exists and lists it,
   and a game's members are exactly sessions whose game reference names that
   game.
   */
  ghost predicate Valid(t: Tables) {
    KeyedSessions(t) && BoundSparks(t) && SessionsListed(t) && KeyedGames(t) && MembersBelong(t)
  }

  ghost predicate KeyedSessions(t: Tables) {
    forall k :: k in t.sessions ==> t.sessions[k].id == k && t.sessions[k].spark.Some?
  }

  ghost predicate BoundSparks(t: Tables) {
    forall c :: c in t.sparks ==>
      t.sparks[c] in t.sessions && t.sessions[t.sparks[c]].spark == Some(c)
  }

  ghost predicate SessionsListed(t: Tables) {
    forall k :: k in t.sessions && t.sessions[k].game.Some? ==>
      && t.sessions[k].game.value.serverAddress in t.games
      && k in t.games[t.sessions[k].game.value.serverAddress].members
  }

  ghost predicate KeyedGames(t: Tables) {
    forall a :: a in t.games ==> t.games[a].serverAddress == a
  }

  ghost predicate MembersBelong(t: Tables) {
    forall a, k {:trigger k in t.games[a].members} :: a in t.games && k in t.games[a].members ==>
      && t.games[a].members[k].id == k
      && k in t.sessions
      && t.sessions[k].game.Some?
      && t.sessions[k].game.value.serverAddress == a
  }

  /**
   The session a connection is bound to, as the router's gate sees it: an
   entry holding the empty id reads as no entry at all.
   */
  function Lookup(t: Tables, c: ConnId): (r: Option<SessionId>)
    ensures r.Some? <==> c in t.sparks && t.sparks[c] != ""
    ensures r.Some? ==> r.value == t.sparks[c]
    // in consistent tables the gate yields a stored session bound to this very connection
    ensures Valid(t) && r.Some? ==> r.value in t.sessions && t.sessions[r.value].spark == Some(c)
    // and, with no session stored under the empty id, it admits exactly the registered connections
    ensures Valid(t) && "" !in t.sessions ==> (r.Some? <==> c in t.sparks)
  {
    if c in t.sparks && t.sparks[c] != "" then Some(t.sparks[c]) else None
  }

  /** The session id a registration resolves to. */
  function ResolveId(requested: Option<SessionId>, c: ConnId): SessionId {
    if requested.None? then c else requested.value
  }

  /**
   Registration of connection `c`: find or create the session, drop its
   previous connection from the registry, bind `c` to it and stamp it.
   */
  function RegisterStep(t: Tables, c: ConnId, requested: Option<SessionId>, now: Time): (r: Tables)
    // without an id the connection id is the session id
    ensures requested.None? ==> c in r.sessions && r.sessions[c].spark == Some(c)
    ensures var id := ResolveId(requested, c);
      && id in r.sessions
      && r.sessions[id].spark == Some(c)
      && r.sessions[id].lastMessage == Register(Some(id))
      && r.sessions[id].timestamp == now && r.sessions[id].connected == now
      && c in r.sparks && r.sparks[c] == r.sessions[id].id
      // an existing record is reused, keeping its identity and game
      && (id in t.sessions ==>
            r.sessions[id].id == t.sessions[id].id && r.sessions[id].game == t.sessions[id].game)
      && (id !in t.sessions ==> r.sessions[id].id == id && r.sessions[id].game.None?)
      && r.sessions.Keys == t.sessions.Keys + {id}
      && (forall k :: k in t.sessions && k != id ==> r.sessions[k] == t.sessions[k])
      // the superseded connection is unbound; every other binding stays
      && (id in t.sessions && t.sessions[id].spark.Some? && t.sessions[id].spark.value != c ==>
            t.sessions[id].spark.value !in r.sparks)
      && (forall d :: (d in t.sparks && d != c &&
                       !(id in t.sessions && t.sessions[id].spark == Some(d))) ==>
              d in r.sparks && r.sparks[d] == t.sparks[d])
      && (forall d :: d in r.sparks ==> d == c || d in t.sparks)
    ensures r.games == t.games
  {
    var id := ResolveId(requested, c);
    var session := if id in t.sessions then t.sessions[id]
                   else Session(id, None, Register(Some(id)), now, now, None);
    var sparks := if session.spark.Some? then t.sparks - {session.spark.value} else t.sparks;
    var session' := session.(spark := Some(c), lastMessage := Register(Some(id)),
                             timestamp := now, connected := now);
    Tables(sparks[c := session'.id], t.sessions[id := session'], t.games)
  }

  /** The audit trail every message from a registered connection leaves on its session. */
  function Record(t: Tables, sid: SessionId, msg: Message, now: Time): (r: Tables)
    requires sid in t.sessions
    ensures sid in r.sessions
    ensures r.sessions[sid] == t.sessions[sid].(lastMessage := msg, timestamp := now)
    ensures r.sparks == t.sparks && r.games == t.games && r.sessions.Keys == t.sessions.Keys
    ensures forall k :: k in t.sessions && k != sid ==> r.sessions[k] == t.sessions[k]
    ensures Valid(t) ==> Valid(r)
  {
    t.(sessions := t.sessions[sid := t.sessions[sid].(lastMessage := msg, timestamp := now)])
  }

  /**
   Session `sid` joins game `addr`: it leaves its previous game (which is
   kept, possibly empty), the target game is found or created, the session
   points at it, and its member entry is set to the join record.
   */
  function JoinStep(t: Tables, sid: SessionId, addr: Address, name: Value, cells: Value): (r: Tables)
    requires sid in t.sessions
    ensures r.games.Keys == t.games.Keys + {addr}
    ensures r.sparks == t.sparks && r.sessions.Keys == t.sessions.Keys
    ensures var s := t.sessions[sid];
      && addr in r.games
      && s.id in r.games[addr].members
      && r.games[addr].members[s.id] == Joined(s.id, name, cells)
      && (addr in t.games ==> r.games[addr].serverAddress == t.games[addr].serverAddress)
      && (addr !in t.games ==> r.games[addr].serverAddress == addr)
      // one entry per session: re-joining the same game replaces, never duplicates
      && (addr in t.games ==> r.games[addr].members.Keys <= t.games[addr].members.Keys + {s.id})
      && (addr !in t.games ==> r.games[addr].members.Keys == {s.id})
      && (forall k :: addr in t.games && k in t.games[addr].members && k != s.id ==>
            k in r.games[addr].members && r.games[addr].members[k] == t.games[addr].members[k])
      // the previous game loses this member only, and is not removed
      && (s.game.Some? && s.game.value.serverAddress != addr && s.game.value.serverAddress in t.games ==>
            var prev := t.games[s.game.value.serverAddress];
            r.games[s.game.value.serverAddress] == prev.(members := prev.members - {s.id}))
      && (forall a :: a in t.games && a != addr && !(s.game.Some? && s.game.value.serverAddress == a) ==>
            r.games[a] == t.games[a])
      && r.sessions[sid] == s.(game := Some(GameRef(addr, name)))
    ensures forall k :: k in t.sessions && k != sid ==> r.sessions[k] == t.sessions[k]
  {
    var s := t.sessions[sid];
    var games :=
      if s.game.Some? && s.game.value.serverAddress in t.games then
        var old_ := t.games[s.game.value.serverAddress];
        t.games[s.game.value.serverAddress := old_.(members := old_.members - {s.id})]
      else t.games;
    var game := if addr in games then games[addr] else Game(addr, map[]);
    var game' := game.(members := game.members[s.id := Joined(s.id, name, cells)]);
    Tables(t.sparks, t.sessions[sid := s.(game := Some(GameRef(addr, name)))], games[addr := game'])
  }

  /** Whether session `sid` is in a game that exists, so that a game update can reach it. */
  predicate InGame(t: Tables, sid: SessionId) {
    sid in t.sessions && t.sessions[sid].game.Some? &&
    t.sessions[sid].game.value.serverAddress in t.games
  }

  /** The game session `sid` is in. */
  function GameOf(t: Tables, sid: SessionId): (g: Game)
    requires InGame(t, sid)
    ensures Valid(t) ==> sid in g.members && g.serverAddress == t.sessions[sid].game.value.serverAddress
  {
    t.games[t.sessions[sid].game.value.serverAddress]
  }

  /**
   A `self` update: the sender's member entry in its game is replaced
   wholesale by the update data, tagged with the session id.
   */
  function SelfStep(t: Tables, sid: SessionId, data: Value): (r: Tables)
    requires InGame(t, sid)
    ensures var s := t.sessions[sid]; var a := s.game.value.serverAddress;
      && a in r.games
      && s.id in r.games[a].members
      && r.games[a].members[s.id] == Snapshot(s.id, data)
      && r.games[a].members.Keys == t.games[a].members.Keys + {s.id}
      && r.games[a].serverAddress == t.games[a].serverAddress
      && (forall k :: k in t.games[a].members && k != s.id ==>
            r.games[a].members[k] == t.games[a].members[k])
      && (forall b :: b in t.games && b != a ==> b in r.games && r.games[b] == t.games[b])
    ensures r.games.Keys == t.games.Keys
    ensures r.sparks == t.sparks && r.sessions == t.sessions
  {
    var s := t.sessions[sid];
    var a := s.game.value.serverAddress;
    t.(games := t.games[a := t.games[a].(members := t.games[a].members[s.id := Snapshot(s.id, data)])])
  }
}
