/**
 The relay server object: its three tables held in place and updated step
 by step by the message handler, with the transport abstracted as the set
 of connection ids it still knows (passed in with each message) and an
 outbox of the writes made so far. Each method's new tables are those its
 specification function in Registry or Router computes from the old ones.
 */
module Relay {
  import opened Wrappers
  import opened Registry
  import opened Invariants
  import opened Broadcast
  import opened Router

  class Server {
    var sparks: map<ConnId, SessionId>
    var sessions: map<SessionId, Session>
    var games: map<Address, Game>
    /** Every write made to any connection, oldest first. */
    var outbox: seq<Write>

    /** The three tables as one value. */
    function State(): Tables
      reads this
    {
      Tables(sparks, sessions, games)
    }

    constructor ()
      ensures State() == Empty && outbox == []
      ensures Valid(State())
    {
      sparks, sessions, games := map[], map[], map[];
      outbox := [];
      EmptyIsValid();
    }

    /**
     The handler for one message on connection `c`: `live` is the set of
     connections the transport knows, `ok` is false when the handler stops
     on a type error, and a fan-out visits the game's members in `order`.
     */
    method OnData(c: ConnId, msg: Message, now: Time, live: set<ConnId>) returns (ok: bool, ghost order: seq<SessionId>)
      modifies this
      ensures var o := Handle(old(State()), c, msg, now);
        && State() == o.tables
        && ok == !o.effect.Crash?
        && Emitted(old(outbox), outbox, o.effect, State(), live, order)
      ensures Valid(old(State())) ==> Valid(State())
    {
      if Valid(State()) {
        HandleKeepsValid(State(), c, msg, now);
      }
      ok, order := true, [];
      if c !in sparks || sparks[c] == "" {
        if msg.Register? {
          Register(c, msg.id, now);
        }
        return;
      }
      var sid := sparks[c];
      if sid !in sessions {
        return;
      }
      sessions := sessions[sid := sessions[sid].(lastMessage := msg, timestamp := now)];
      match msg {
        case Join(addr, name, cells) =>
          order := Join(sid, addr, name, cells, live);
        case Update(kind, data) =>
          ok, order := Update(sid, kind, data, live);
        case _ =>
      }
    }

    /** Binds connection `c` to the session `requested` names, or to its own id, and acknowledges. */
    method Register(c: ConnId, requested: Option<SessionId>, now: Time)
      modifies this
      ensures State() == RegisterStep(old(State()), c, requested, now)
      ensures outbox == old(outbox) + [Write(c, RegisterAck(ResolveId(requested, c)))]
    {
      var id := if requested.None? then c else requested.value;
      var session: Session;
      if id in sessions {
        session := sessions[id];
      } else {
        session := Session(id, None, Message.Register(Some(id)), now, now, None);
        sessions := sessions[id := session];
      }
      if session.spark.Some? {
        sparks := sparks - {session.spark.value};
      }
      session := session.(spark := Some(c), lastMessage := Message.Register(Some(id)),
                          timestamp := now, connected := now);
      sessions := sessions[id := session];
      sparks := sparks[c := session.id];
      outbox := outbox + [Write(c, RegisterAck(id))];
    }

    /** Moves session `sid` into game `addr` and broadcasts that game. */
    method Join(sid: SessionId, addr: Address, name: Value, cells: Value, live: set<ConnId>)
      returns (ghost order: seq<SessionId>)
      requires sid in sessions
      modifies this
      ensures State() == JoinStep(old(State()), sid, addr, name, cells)
      ensures addr in games
      ensures Emitted(old(outbox), outbox, SnapshotOf(games[addr]), State(), live, order)
    {
      ghost var t0 := State();
      var session := sessions[sid];
      if session.game.Some? {
        var prev := session.game.value.serverAddress;
        if prev in games {
          games := games[prev := games[prev].(members := games[prev].members - {session.id})];
        }
      }
      ghost var left := games;
      var game: Game;
      if addr in games {
        game := games[addr];
      } else {
        game := Game(addr, map[]);
        games := games[addr := game];
      }
      session := session.(game := Some(GameRef(addr, name)));
      sessions := sessions[sid := session];
      game := game.(members := game.members[session.id := Joined(session.id, name, cells)]);
      games := games[addr := game];
      assert games == left[addr := game];
      assert State() == JoinStep(t0, sid, addr, name, cells);
      order := SendGameSessions(game, live);
    }

    /** Dispatches an update on its kind; kinds other than blobs and self are ignored. */
    method Update(sid: SessionId, kind: string, data: Value, live: set<ConnId>)
      returns (ok: bool, ghost order: seq<SessionId>)
      requires sid in sessions
      modifies this
      ensures var o := Dispatch(old(State()), sid, Message.Update(kind, data));
        && State() == o.tables
        && ok == !o.effect.Crash?
        && Emitted(old(outbox), outbox, o.effect, State(), live, order)
    {
      ok, order := true, [];
      if kind == "blobs" {
        ok, order := UpdateBlobs(sid, data, live);
      } else if kind == "self" {
        ok, order := UpdateSelf(sid, data, live);
      }
    }

    /** Relays blobs data, tagged with its source, to the members of the sender's game. */
    method UpdateBlobs(sid: SessionId, data: Value, live: set<ConnId>)
      returns (ok: bool, ghost order: seq<SessionId>)
      requires sid in sessions
      modifies this`outbox
      ensures ok == InGame(State(), sid)
      ensures ok ==> Emitted(old(outbox), outbox, FanOut(GameOf(State(), sid), BlobsUpdate(data, sessions[sid].id)),
                             State(), live, order)
      ensures !ok ==> outbox == old(outbox)
    {
      var session := sessions[sid];
      if session.game.None? {
        // reading the address of a missing game reference is a type error
        return false, [];
      }
      var addr := session.game.value.serverAddress;
      if addr !in games {
        // fanning out over a missing game is a type error
        return false, [];
      }
      ok := true;
      order := SendPayload(games[addr], BlobsUpdate(data, session.id), live);
    }

    /** Replaces the sender's member entry with its own snapshot and broadcasts the game. */
    method UpdateSelf(sid: SessionId, data: Value, live: set<ConnId>)
      returns (ok: bool, ghost order: seq<SessionId>)
      requires sid in sessions
      modifies this
      ensures ok == InGame(old(State()), sid)
      ensures ok ==> var a := old(sessions[sid].game.value.serverAddress);
        && State() == SelfStep(old(State()), sid, data)
        && a in games
        && Emitted(old(outbox), outbox, SnapshotOf(games[a]), State(), live, order)
      ensures !ok ==> State() == old(State()) && outbox == old(outbox)
    {
      var session := sessions[sid];
      if session.game.None? {
        return false, [];
      }
      var addr := session.game.value.serverAddress;
      if addr !in games {
        return false, [];
      }
      ok := true;
      var game := games[addr];
      game := game.(members := game.members[session.id := Snapshot(session.id, data)]);
      games := games[addr := game];
      order := SendGameSessions(game, live);
    }

    /** Broadcasts the whole game `g` to its members. */
    method SendGameSessions(g: Game, live: set<ConnId>) returns (ghost order: seq<SessionId>)
      modifies this`outbox
      ensures Emitted(old(outbox), outbox, SnapshotOf(g), State(), live, order)
    {
      order := SendPayload(g, GameUpdate(g), live);
    }

    /**
     Writes `p` to the connection of every member of `g` whose session
     exists and whose connection the transport knows, visiting the members
     in an order it picks; every other member is skipped.
     */
    method SendPayload(g: Game, p: Payload, live: set<ConnId>) returns (ghost order: seq<SessionId>)
      modifies this`outbox
      ensures Enumerates(order, g.members.Keys)
      ensures outbox == old(outbox) + Fanout(State(), live, order, p)
    {
      ghost var t := State();
      ghost var sent := outbox;
      var pending := g.members.Keys;
      order := [];
      while pending != {}
        invariant pending <= g.members.Keys
        invariant Enumerates(order, g.members.Keys - pending)
        invariant t == State()
        invariant outbox == sent + Fanout(t, live, order, p)
        decreases pending
      {
        var k :| k in pending;
        SendTo(k, p, live);
        FanoutSnoc(t, live, sent, order, k, p);
        EnumeratesSnoc(order, g.members.Keys - pending, k);
        assert g.members.Keys - (pending - {k}) == (g.members.Keys - pending) + {k};
        order := order + [k];
        pending := pending - {k};
      }
      assert g.members.Keys - pending == g.members.Keys;
    }

    /** The per-member step of a fan-out: one write if member `k` is reachable, none otherwise. */
    method SendTo(k: SessionId, p: Payload, live: set<ConnId>)
      modifies this`outbox
      ensures outbox == old(outbox) + Deliver(State(), live, k, p)
    {
      if k in sessions && sessions[k].spark.Some? {
        var sp := sessions[k].spark.value;
        if sp in live {
          outbox := outbox + [Write(sp, p)];
        }
      }
    }
  }
}
