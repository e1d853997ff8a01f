/**
 The message router: what one inbound message does to the tables and what
 it sends, and what a sequence of messages does. A connection the registry
 does not know may only register; a registered connection's message is
 first recorded on its session and then dispatched on its type.
 */
module Router {
  import opened Wrappers
  import opened Registry
  import opened Invariants
  import opened Broadcast

  /**
   What handling one message sends: nothing, the registration
   acknowledgement, a fan-out of a payload over a game's members, or nothing
   because a type error aborted the handler.
   */
  datatype Effect =
    | Quiet
    | Ack(to: ConnId, id: SessionId)
    | FanOut(game: Game, payload: Payload)
    | Crash

  datatype Outcome = Outcome(tables: Tables, effect: Effect)

  /** Whether a message is an update of the given kind. */
  predicate IsUpdate(msg: Message, kind: string) {
    msg.Update? && msg.updateType == kind
  }

  /** The full-game snapshot broadcast after a join or a self update. */
  function SnapshotOf(g: Game): Effect {
    FanOut(g, GameUpdate(g))
  }

  /** One inbound message `msg` on connection `c`, received at time `now`. */
  function Handle(t: Tables, c: ConnId, msg: Message, now: Time): (o: Outcome)
    // the gate: an unknown connection may only register
    ensures Lookup(t, c).None? && !msg.Register? ==> o == Outcome(t, Quiet)
    ensures Lookup(t, c).None? && msg.Register? ==>
      && o.effect == Ack(c, ResolveId(msg.id, c))
      && c in o.tables.sparks && ResolveId(msg.id, c) in o.tables.sessions
      && o.tables.sparks[c] == o.tables.sessions[ResolveId(msg.id, c)].id
      && o.tables.sessions[ResolveId(msg.id, c)].spark == Some(c)
    ensures o.effect.Ack? ==> Lookup(t, c).None? && msg.Register?
    // a registered connection whose session record is missing is ignored
    ensures Lookup(t, c).Some? && Lookup(t, c).value !in t.sessions ==> o == Outcome(t, Quiet)
    // every message of a registered connection is recorded, and leaves the registry alone
    ensures Lookup(t, c).Some? && Lookup(t, c).value in t.sessions ==>
      var sid := Lookup(t, c).value;
      && o.tables.sparks == t.sparks
      && sid in o.tables.sessions
      && o.tables.sessions[sid].lastMessage == msg
      && o.tables.sessions[sid].timestamp == now
      && o.tables.sessions.Keys == t.sessions.Keys
    // only a join or a self update changes a game
    ensures !msg.Join? && !IsUpdate(msg, "self") ==> o.tables.games == t.games
    ensures !msg.Join? && !IsUpdate(msg, "self") && !IsUpdate(msg, "blobs") ==> o.effect.Quiet? || o.effect.Ack?
    // a self update replaces the sender's member entry with its data, tagged with the session id
    ensures Lookup(t, c).Some? && msg.Update? && msg.updateType == "self" && o.effect.FanOut? ==>
      var sid := Lookup(t, c).value;
      && InGame(t, sid)
      && var s := t.sessions[sid];
      && s.game.value.serverAddress in o.tables.games
      && o.effect == SnapshotOf(o.tables.games[s.game.value.serverAddress])
      && s.id in o.effect.game.members
      && o.effect.game.members[s.id] == Snapshot(s.id, msg.updateData)
    // a blobs update relays the data tagged with its source
    ensures Lookup(t, c).Some? && msg.Update? && msg.updateType == "blobs" && o.effect.FanOut? ==>
      var sid := Lookup(t, c).value;
      && InGame(t, sid)
      && o.effect.payload == BlobsUpdate(msg.updateData, t.sessions[sid].id)
      && o.effect.game == GameOf(t, sid)
    // a join broadcasts the joined game, which now lists the session
    ensures Lookup(t, c).Some? && msg.Join? && Lookup(t, c).value in t.sessions ==>
      var s := t.sessions[Lookup(t, c).value];
      && msg.serverAddress in o.tables.games
      && o.effect == SnapshotOf(o.tables.games[msg.serverAddress])
      && s.id in o.effect.game.members
      && o.effect.game.members[s.id] == Joined(s.id, msg.name, msg.cells)
    // an update from a session in an existing game always broadcasts
    ensures Lookup(t, c).Some? && Lookup(t, c).value in t.sessions && InGame(t, Lookup(t, c).value) ==>
      var sid := Lookup(t, c).value;
      && (IsUpdate(msg, "blobs") ==>
            o.effect == FanOut(GameOf(t, sid), BlobsUpdate(msg.updateData, t.sessions[sid].id)))
      && (IsUpdate(msg, "self") ==>
            var a := t.sessions[sid].game.value.serverAddress;
            a in o.tables.games && o.effect == SnapshotOf(o.tables.games[a]))
    // no game and no session is ever removed
    ensures t.games.Keys <= o.tables.games.Keys && t.sessions.Keys <= o.tables.sessions.Keys
    // the new tables are those of the step the message selects
    ensures Lookup(t, c).None? && msg.Register? ==> o.tables == RegisterStep(t, c, msg.id, now)
    ensures Lookup(t, c).Some? && Lookup(t, c).value in t.sessions ==>
      var sid := Lookup(t, c).value;
      var t1 := Record(t, sid, msg, now);
      // any other type, a blobs update and a failed update only leave the audit trail
      && (!msg.Join? && !IsUpdate(msg, "self") ==> o.tables == t1)
      && (o.effect.Crash? ==> o.tables == t1)
      && (msg.Join? ==> o.tables == JoinStep(t1, sid, msg.serverAddress, msg.name, msg.cells))
      && (IsUpdate(msg, "self") && InGame(t1, sid) ==> o.tables == SelfStep(t1, sid, msg.updateData))
  {
    match Lookup(t, c)
    case None =>
      if msg.Register? then Outcome(RegisterStep(t, c, msg.id, now), Ack(c, ResolveId(msg.id, c)))
      else Outcome(t, Quiet)
    case Some(sid) =>
      if sid !in t.sessions then Outcome(t, Quiet)
      else Dispatch(Record(t, sid, msg, now), sid, msg)
  }

  /**
   What a registered session's message does once it has been recorded: a
   join, a blobs or self update, or nothing for any other type. An update
   from a session outside any existing game dereferences a missing game and
   fails.
   */
  function Dispatch(t: Tables, sid: SessionId, msg: Message): (o: Outcome)
    requires sid in t.sessions
    ensures o.tables.sparks == t.sparks && o.tables.sessions.Keys == t.sessions.Keys
    ensures !o.effect.Ack?
    ensures o.effect.Crash? <==> (IsUpdate(msg, "blobs") || IsUpdate(msg, "self")) && !InGame(t, sid)
    // only a join or a successful self update changes the tables
    ensures !msg.Join? && !IsUpdate(msg, "self") ==> o.tables == t
    ensures o.effect.Crash? ==> o.tables == t
    ensures !msg.Join? && !IsUpdate(msg, "self") && !IsUpdate(msg, "blobs") ==> o.effect.Quiet?
    // a join moves the session into the named game and broadcasts that game
    ensures msg.Join? ==>
      && o.tables == JoinStep(t, sid, msg.serverAddress, msg.name, msg.cells)
      && msg.serverAddress in o.tables.games
      && o.effect == SnapshotOf(o.tables.games[msg.serverAddress])
      && t.sessions[sid].id in o.effect.game.members
      && o.effect.game.members[t.sessions[sid].id] == Joined(t.sessions[sid].id, msg.name, msg.cells)
    // a self update rewrites the sender's entry and broadcasts the sender's game
    ensures IsUpdate(msg, "self") && InGame(t, sid) ==>
      var a := t.sessions[sid].game.value.serverAddress;
      && o.tables == SelfStep(t, sid, msg.updateData)
      && a in o.tables.games
      && o.effect == SnapshotOf(o.tables.games[a])
    // a blobs update relays the data, tagged with its source, over the sender's game
    ensures IsUpdate(msg, "blobs") && InGame(t, sid) ==>
      o.effect == FanOut(GameOf(t, sid), BlobsUpdate(msg.updateData, t.sessions[sid].id))
  {
    match msg
    case Join(addr, name, cells) =>
      var t1 := JoinStep(t, sid, addr, name, cells);
      Outcome(t1, SnapshotOf(t1.games[addr]))
    case Update(kind, data) =>
      if kind == "blobs" then
        if InGame(t, sid) then Outcome(t, FanOut(GameOf(t, sid), BlobsUpdate(data, t.sessions[sid].id)))
        else Outcome(t, Crash)
      else if kind == "self" then
        if InGame(t, sid) then
          var t1 := SelfStep(t, sid, data);
          Outcome(t1, SnapshotOf(t1.games[t.sessions[sid].game.value.serverAddress]))
        else Outcome(t, Crash)
      else Outcome(t, Quiet)
    case _ => Outcome(t, Quiet)
  }

  /** The consistency of the tables survives every message. */
  lemma {:induction false} HandleKeepsValid(t: Tables, c: ConnId, msg: Message, now: Time)
    requires Valid(t)
    ensures Valid(Handle(t, c, msg, now).tables)
  {
    match Lookup(t, c)
    case None =>
      if msg.Register? { RegisterKeepsValid(t, c, msg.id, now); }
    case Some(sid) =>
      if sid in t.sessions {
        var t1 := Record(t, sid, msg, now);
        match msg
        case Join(addr, name, cells) => JoinKeepsValid(t1, sid, addr, name, cells);
        case Update(kind, data) =>
          if kind == "self" && InGame(t1, sid) { SelfKeepsValid(t1, sid, data); }
        case _ =>
      }
  }

  /**
   From consistent tables the handler fails only on an update (blobs or
   self) from a session that has not joined any game.
   */
  lemma CrashesOnlyBeforeJoin(t: Tables, c: ConnId, msg: Message, now: Time)
    requires Valid(t)
    ensures Handle(t, c, msg, now).effect.Crash? <==>
      && Lookup(t, c).Some?
      && (IsUpdate(msg, "blobs") || IsUpdate(msg, "self"))
      && t.sessions[Lookup(t, c).value].game.None?
  {
  }

  /** One message as the transport delivers it. */
  datatype Event = Event(conn: ConnId, msg: Message, now: Time)

  /**
   The tables after handling `events` one at a time; a type error aborts
   the process, so nothing after a crash is handled.
   */
  function Run(t: Tables, events: seq<Event>): (r: Tables)
    ensures t.games.Keys <= r.games.Keys
    ensures t.sessions.Keys <= r.sessions.Keys
    decreases |events|
  {
    if events == [] then t
    else
      var o := Handle(t, events[0].conn, events[0].msg, events[0].now);
      if o.effect.Crash? then o.tables else Run(o.tables, events[1..])
  }

  lemma {:induction false} RunKeepsValid(t: Tables, events: seq<Event>)
    requires Valid(t)
    ensures Valid(Run(t, events))
    decreases |events|
  {
    if events != [] {
      HandleKeepsValid(t, events[0].conn, events[0].msg, events[0].now);
      RunKeepsValid(Handle(t, events[0].conn, events[0].msg, events[0].now).tables, events[1..]);
    }
  }

  /** A game that exists stays, with the same key, through any run. */
  lemma {:induction false} RunKeepsGame(t: Tables, events: seq<Event>, a: Address)
    requires Valid(t) && a in t.games
    ensures var r := Run(t, events); a in r.games && r.games[a].serverAddress == a
  {
    RunKeepsValid(t, events);
  }

  /**
   What handling a message writes: `after` is the outbox `before` plus the
   writes of `e`, a fan-out listing the game's members in `order` and
   reading the tables `t` as they are after the handler's updates.
   */
  ghost predicate Emitted(before: seq<Write>, after: seq<Write>, e: Effect, t: Tables,
                          live: set<ConnId>, order: seq<SessionId>)
  {
    match e
    case Quiet => after == before
    case Crash => after == before
    case Ack(to, id) => after == before + [Write(to, RegisterAck(id))]
    case FanOut(g, p) => Enumerates(order, g.members.Keys) && after == before + Fanout(t, live, order, p)
  }
}
