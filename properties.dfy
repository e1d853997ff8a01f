/**
 Properties of whole message exchanges: reconnection, repeated joins, an
 emptied game, and how far the one-session-per-connection binding holds.
 */
module Properties {
  import opened Wrappers
  import opened Registry
  import opened Invariants
  import opened Broadcast
  import opened Router

  /** The binding stays exclusive through any message but a registration under the empty id. */
  lemma {:induction false} HandleKeepsExclusive(t: Tables, c: ConnId, msg: Message, now: Time)
    requires Valid(t) && Exclusive(t)
    requires msg != Register(Some(""))
    ensures Exclusive(Handle(t, c, msg, now).tables)
  {
    match Lookup(t, c)
    case None =>
      if msg.Register? { RegisterKeepsExclusive(t, c, msg.id, now); }
    case Some(sid) =>
      if sid in t.sessions {
        var t1 := Record(t, sid, msg, now);
        if msg.Join? { JoinKeepsExclusive(t1, sid, msg.serverAddress, msg.name, msg.cells); }
      }
  }

  /** No message in `events` registers under the empty id. */
  ghost predicate NoEmptyIds(events: seq<Event>) {
    forall i :: 0 <= i < |events| ==> events[i].msg != Register(Some(""))
  }

  lemma {:induction false} RunKeepsExclusive(t: Tables, events: seq<Event>)
    requires Valid(t) && Exclusive(t) && NoEmptyIds(events)
    ensures Exclusive(Run(t, events))
    decreases |events|
  {
    if events != [] {
      var e := events[0];
      HandleKeepsValid(t, e.conn, e.msg, e.now);
      HandleKeepsExclusive(t, e.conn, e.msg, e.now);
      RunKeepsExclusive(Handle(t, e.conn, e.msg, e.now).tables, events[1..]);
    }
  }

  /**
   Reconnection: session `s` registered from connection `a` and then from
   connection `b` ends bound to `b`, and `a` is bound to nothing; so a
   fan-out to any game reaches `b` when `s` is listed and never writes to `a`.
   */
  lemma Reconnect(t: Tables, a: ConnId, b: ConnId, s: SessionId, now1: Time, now2: Time,
                  live: set<ConnId>, order: seq<SessionId>, p: Payload)
    requires Valid(t) && Exclusive(t)
    requires a != b && s != ""
    requires Lookup(t, a).None? && Lookup(t, b).None?
    ensures var t1 := Handle(t, a, Register(Some(s)), now1).tables;
      var t2 := Handle(t1, b, Register(Some(s)), now2).tables;
      && b in t2.sparks && t2.sparks[b] == s
      && a !in t2.sparks
      && s in t2.sessions && t2.sessions[s].spark == Some(b)
      && (forall k :: k in t2.sessions ==> t2.sessions[k].spark != Some(a))
      && Write(a, p) !in Fanout(t2, live, order, p)
      && (s in order && b in live ==> Write(b, p) in Fanout(t2, live, order, p))
  {
    var t1 := RegisterStep(t, a, Some(s), now1);
    RegisterKeepsValid(t, a, Some(s), now1);
    RegisterKeepsExclusive(t, a, Some(s), now1);
    assert b !in t.sparks;
    assert Lookup(t1, b).None?;
    var t2 := RegisterStep(t1, b, Some(s), now2);
    RegisterKeepsValid(t1, b, Some(s), now2);
    RegisterKeepsExclusive(t1, b, Some(s), now2);
    assert a !in t2.sparks;
    if Write(a, p) in Fanout(t2, live, order, p) {
      FanoutOnlyReached(t2, live, order, p, Write(a, p));
    }
    if s in order && b in live {
      FanoutReaches(t2, live, order, p, s);
    }
  }

  /**
   Joining the same game twice leaves the tables exactly as one join with
   the later name and cells would: one entry per session, the latest one.
   */
  lemma JoinTwice(t: Tables, sid: SessionId, addr: Address, name1: Value, cells1: Value, name2: Value, cells2: Value)
    requires sid in t.sessions
    ensures JoinStep(JoinStep(t, sid, addr, name1, cells1), sid, addr, name2, cells2)
         == JoinStep(t, sid, addr, name2, cells2)
  {
    var s := t.sessions[sid];
    var t1 := JoinStep(t, sid, addr, name1, cells1);
    var twice := JoinStep(t1, sid, addr, name2, cells2);
    var once := JoinStep(t, sid, addr, name2, cells2);
    assert t1.sessions[sid].id == s.id;
    assert twice.games[addr].members == once.games[addr].members;
    assert twice.games == once.games;
  }

  /**
   A game whose only member moves to another game stays in the store with
   no members.
   */
  lemma LastMemberLeaves(t: Tables, sid: SessionId, addr: Address, name: Value, cells: Value)
    requires Valid(t) && InGame(t, sid)
    requires t.sessions[sid].game.value.serverAddress != addr
    requires t.games[t.sessions[sid].game.value.serverAddress].members.Keys == {sid}
    ensures var prev := t.sessions[sid].game.value.serverAddress; var r := JoinStep(t, sid, addr, name, cells);
      prev in r.games && r.games[prev].members == map[]
  {
    var prev := t.sessions[sid].game.value.serverAddress;
    var r := JoinStep(t, sid, addr, name, cells);
    assert r.games[prev].members.Keys == {};
  }

  /**
   The gate reads a binding to the empty id as no binding: a connection
   that registered under "" is still unregistered.
   */
  lemma EmptyIdStaysUnregistered(t: Tables, c: ConnId, now: Time)
    requires Valid(t)
    ensures Lookup(RegisterStep(t, c, Some(""), now), c).None?
  {
  }

  /**
   Registering under "" and then under "t" from the same connection leaves
   two sessions bound to that one connection, so the binding is no longer
   exclusive.
   */
  lemma EmptyIdSharesConnection()
    ensures var t1 := Handle(Empty, "c", Register(Some("")), 0).tables;
      var t2 := Handle(t1, "c", Register(Some("t")), 1).tables;
      && "" in t2.sessions && "t" in t2.sessions
      && t2.sessions[""].spark == Some("c") && t2.sessions["t"].spark == Some("c")
      && !Exclusive(t2)
  {
    var t1 := Handle(Empty, "c", Register(Some("")), 0).tables;
    assert Lookup(t1, "c").None?;
  }
}
