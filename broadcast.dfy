/**
 Best-effort fan-out of one payload to the members of a game. The members
 are visited in some order the caller does not choose; a member is reached
 when its session exists, has a connection, and the transport still knows
 that connection. Every other member is skipped without error.
 */
module Broadcast {
  import opened Wrappers
  import opened Registry

  /** Whether a write to member `k` reaches a connection the transport knows. */
  predicate Reachable(t: Tables, live: set<ConnId>, k: SessionId) {
    k in t.sessions && t.sessions[k].spark.Some? && t.sessions[k].spark.value in live
  }

  /** `order` lists every key of `keys` exactly once. */
  ghost predicate Enumerates(order: seq<SessionId>, keys: set<SessionId>) {
    && (forall i, j :: 0 <= i < j < |order| ==> order[i] != order[j])
    && (forall k :: k in order <==> k in keys)
  }

  /** The writes one member receives: one if reachable, none otherwise. */
  function Deliver(t: Tables, live: set<ConnId>, k: SessionId, p: Payload): (w: seq<Write>)
    ensures |w| <= 1
    ensures w != [] <==> Reachable(t, live, k)
  {
    if Reachable(t, live, k) then [Write(t.sessions[k].spark.value, p)] else []
  }

  /** The writes a fan-out over the members in `order` appends, in that order. */
  function Fanout(t: Tables, live: set<ConnId>, order: seq<SessionId>, p: Payload): (w: seq<Write>)
    ensures |w| <= |order|
    ensures forall i :: 0 <= i < |w| ==> w[i].payload == p && w[i].to in live
  {
    if order == [] then []
    else Fanout(t, live, order[..|order| - 1], p) + Deliver(t, live, order[|order| - 1], p)
  }

  /** Visiting one more member appends that member's delivery to what was written before. */
  lemma FanoutSnoc(t: Tables, live: set<ConnId>, sent: seq<Write>, order: seq<SessionId>, k: SessionId, p: Payload)
    ensures sent + Fanout(t, live, order, p) + Deliver(t, live, k, p) == sent + Fanout(t, live, order + [k], p)
  {
    assert (order + [k])[..|order|] == order;
  }

  /** Listing one more, unlisted key extends an enumeration. */
  lemma EnumeratesSnoc(order: seq<SessionId>, keys: set<SessionId>, k: SessionId)
    requires Enumerates(order, keys) && k !in keys
    ensures Enumerates(order + [k], keys + {k})
  {
  }

  /** The members of `order` a fan-out reaches. */
  function ReachedIn(t: Tables, live: set<ConnId>, order: seq<SessionId>): set<SessionId> {
    set k | k in order && Reachable(t, live, k)
  }

  /** Every reachable member listed in `order` is written to. */
  lemma {:induction false} FanoutReaches(t: Tables, live: set<ConnId>, order: seq<SessionId>, p: Payload, k: SessionId)
    requires k in order && Reachable(t, live, k)
    ensures Write(t.sessions[k].spark.value, p) in Fanout(t, live, order, p)
  {
    var last := order[|order| - 1];
    if k != last {
      assert k in order[..|order| - 1];
      FanoutReaches(t, live, order[..|order| - 1], p, k);
    }
  }

  /** Every write goes to the connection of some reachable member listed in `order`. */
  lemma {:induction false} FanoutOnlyReached(t: Tables, live: set<ConnId>, order: seq<SessionId>, p: Payload, w: Write)
    requires w in Fanout(t, live, order, p)
    ensures w.payload == p
    ensures exists k :: k in order && Reachable(t, live, k) && t.sessions[k].spark.value == w.to
  {
    var init := order[..|order| - 1];
    var last := order[|order| - 1];
    if w in Fanout(t, live, init, p) {
      FanoutOnlyReached(t, live, init, p, w);
      var k :| k in init && Reachable(t, live, k) && t.sessions[k].spark.value == w.to;
      assert k in order;
    } else {
      assert w in Deliver(t, live, last, p);
      assert last in order;
    }
  }

  /**
   Over an order without repetitions, the fan-out writes exactly once per
   reachable member.
   */
  lemma {:induction false} FanoutOncePerMember(t: Tables, live: set<ConnId>, order: seq<SessionId>, p: Payload)
    requires forall i, j :: 0 <= i < j < |order| ==> order[i] != order[j]
    ensures |Fanout(t, live, order, p)| == |ReachedIn(t, live, order)|
  {
    if order != [] {
      var init := order[..|order| - 1];
      var last := order[|order| - 1];
      FanoutOncePerMember(t, live, init, p);
      assert last !in init;
      if Reachable(t, live, last) {
        assert ReachedIn(t, live, order) == ReachedIn(t, live, init) + {last};
      } else {
        assert ReachedIn(t, live, order) == ReachedIn(t, live, init);
      }
    }
  }

  /**
   A complete fan-out over a game's members: it writes `p` once for each
   reachable member, to that member's connection, and nowhere else.
   */
  lemma FanoutOverMembers(t: Tables, live: set<ConnId>, g: Game, order: seq<SessionId>, p: Payload)
    requires Enumerates(order, g.members.Keys)
    ensures |Fanout(t, live, order, p)| == |set k | k in g.members && Reachable(t, live, k)|
    ensures forall k :: k in g.members && Reachable(t, live, k) ==>
      Write(t.sessions[k].spark.value, p) in Fanout(t, live, order, p)
    ensures forall w :: w in Fanout(t, live, order, p) ==>
      w.payload == p && exists k :: k in g.members && Reachable(t, live, k) && t.sessions[k].spark.value == w.to
  {
    FanoutOncePerMember(t, live, order, p);
    forall w | w in Fanout(t, live, order, p)
      ensures w.payload == p
      ensures exists k :: k in g.members && Reachable(t, live, k) && t.sessions[k].spark.value == w.to
    {
      FanoutOnlyReached(t, live, order, p, w);
    }
    assert ReachedIn(t, live, order) == set k | k in g.members && Reachable(t, live, k);
    forall k | k in g.members && Reachable(t, live, k)
      ensures Write(t.sessions[k].spark.value, p) in Fanout(t, live, order, p)
    {
      FanoutReaches(t, live, order, p, k);
    }
  }
}
