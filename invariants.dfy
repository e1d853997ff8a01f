/**
 The consistency of the tables (Registry.Valid) is kept by every step, and
 so is the stronger one-session-per-connection binding (Exclusive) as long
 as no client registers under the empty id.
 */
module Invariants {
  import opened Wrappers
  import opened Registry

  lemma EmptyIsValid()
    ensures Valid(Empty) && Exclusive(Empty)
  {
  }

  lemma {:induction false} RegisterKeepsValid(t: Tables, c: ConnId, requested: Option<SessionId>, now: Time)
    requires Valid(t)
    ensures var r := RegisterStep(t, c, requested, now);
      Valid(r) && r.sparks[c] == ResolveId(requested, c)
  {
    var id := ResolveId(requested, c);
    var r := RegisterStep(t, c, requested, now);
    assert r.sessions[id].id == id;
    forall d | d in r.sparks
      ensures r.sparks[d] in r.sessions && r.sessions[r.sparks[d]].spark == Some(d)
    {
      if d != c {
        assert d in t.sparks;
      }
    }
    forall a, k | a in r.games && k in r.games[a].members
      ensures && r.games[a].members[k].id == k
              && k in r.sessions
              && r.sessions[k].game.Some?
              && r.sessions[k].game.value.serverAddress == a
    {
      assert r.games[a] == t.games[a] && k in t.games[a].members;
      assert k in t.sessions && t.sessions[k].game == r.sessions[k].game;
    }
  }

  lemma {:induction false} JoinKeepsValid(t: Tables, sid: SessionId, addr: Address, name: Value, cells: Value)
    requires Valid(t) && sid in t.sessions
    ensures Valid(JoinStep(t, sid, addr, name, cells))
  {
    JoinKeepsMembersBelong(t, sid, addr, name, cells);
    JoinKeepsSessionsListed(t, sid, addr, name, cells);
  }

  lemma {:induction false} JoinKeepsMembersBelong(t: Tables, sid: SessionId, addr: Address, name: Value, cells: Value)
    requires Valid(t) && sid in t.sessions
    ensures MembersBelong(JoinStep(t, sid, addr, name, cells))
  {
    var r := JoinStep(t, sid, addr, name, cells);
    var s := t.sessions[sid];
    assert s.id == sid;
    forall a, k | a in r.games && k in r.games[a].members
      ensures && r.games[a].members[k].id == k
              && k in r.sessions
              && r.sessions[k].game.Some?
              && r.sessions[k].game.value.serverAddress == a
    {
      if a == addr {
        if k == sid {
          assert r.games[a].members[k] == Joined(sid, name, cells);
        } else {
          assert addr in t.games && k in t.games[addr].members;
          assert r.games[a].members[k] == t.games[a].members[k];
        }
      } else if s.game.Some? && s.game.value.serverAddress == a {
        assert k in t.games[a].members && k != sid;
        assert r.games[a].members[k] == t.games[a].members[k];
      } else {
        assert r.games[a] == t.games[a] && k in t.games[a].members;
        assert k != sid;
      }
    }
  }

  lemma {:induction false} JoinKeepsSessionsListed(t: Tables, sid: SessionId, addr: Address, name: Value, cells: Value)
    requires Valid(t) && sid in t.sessions
    ensures SessionsListed(JoinStep(t, sid, addr, name, cells))
  {
    var r := JoinStep(t, sid, addr, name, cells);
    var s := t.sessions[sid];
    assert s.id == sid;
    forall k | k in r.sessions && r.sessions[k].game.Some?
      ensures && r.sessions[k].game.value.serverAddress in r.games
              && k in r.games[r.sessions[k].game.value.serverAddress].members
    {
      if k != sid {
        var a := t.sessions[k].game.value.serverAddress;
        assert k in t.games[a].members;
        if a == addr {
          assert r.games[a].members[k] == t.games[a].members[k];
        } else if s.game.Some? && s.game.value.serverAddress == a {
          assert k != s.id;
        } else {
          assert r.games[a] == t.games[a];
        }
      }
    }
  }

  lemma {:induction false} SelfKeepsValid(t: Tables, sid: SessionId, data: Value)
    requires Valid(t) && InGame(t, sid)
    ensures Valid(SelfStep(t, sid, data))
  {
    var r := SelfStep(t, sid, data);
    assert t.sessions[sid].id == sid;
    var sa := t.sessions[sid].game.value.serverAddress;
    forall a, k | a in r.games && k in r.games[a].members
      ensures r.games[a].members[k].id == k
    {
      if a != sa {
        assert r.games[a] == t.games[a] && k in t.games[a].members;
        assert t.games[a].members[k].id == k;
      } else if k != sid {
        assert k in t.games[a].members;
        assert r.games[a].members[k] == t.games[a].members[k];
        assert t.games[a].members[k].id == k;
      } else {
        assert r.games[a].members[k] == Snapshot(sid, data);
        assert r.games[a].members[k].id == k;
      }
    }
  }

  /**
   Every stored session's connection is bound back to that session in the
   registry, and no session has the empty id; then no two sessions share a
   connection (OneSessionPerConnection).
   */
  ghost predicate Exclusive(t: Tables) {
    && "" !in t.sessions
    && forall k :: k in t.sessions && t.sessions[k].spark.Some? ==>
         t.sessions[k].spark.value in t.sparks && t.sparks[t.sessions[k].spark.value] == k
  }

  lemma OneSessionPerConnection(t: Tables, k1: SessionId, k2: SessionId)
    requires Exclusive(t)
    requires k1 in t.sessions && k2 in t.sessions && t.sessions[k1].spark.Some?
    requires t.sessions[k1].spark == t.sessions[k2].spark
    ensures k1 == k2
  {
  }

  /**
   A registration under a non-empty id from a connection the gate reads as
   unbound keeps the binding exclusive.
   */
  lemma {:induction false} RegisterKeepsExclusive(t: Tables, c: ConnId, requested: Option<SessionId>, now: Time)
    requires Valid(t) && Exclusive(t)
    requires Lookup(t, c).None? && ResolveId(requested, c) != ""
    ensures Exclusive(RegisterStep(t, c, requested, now))
  {
    var id := ResolveId(requested, c);
    var r := RegisterStep(t, c, requested, now);
    RegisterKeepsValid(t, c, requested, now);
    assert c !in t.sparks;
    forall k | k in r.sessions && r.sessions[k].spark.Some?
      ensures r.sessions[k].spark.value in r.sparks && r.sparks[r.sessions[k].spark.value] == k
    {
      if k != id {
        var d := t.sessions[k].spark.value;
        assert t.sparks[d] == k;
        assert d != c;
      }
    }
  }

  lemma JoinKeepsExclusive(t: Tables, sid: SessionId, addr: Address, name: Value, cells: Value)
    requires Exclusive(t) && sid in t.sessions
    ensures Exclusive(JoinStep(t, sid, addr, name, cells))
  {
  }
}
