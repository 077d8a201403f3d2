/**
 The session history of FFmpegKitConfig.cpp: a list in insertion order and a map from IDs that
 must agree, and the eviction of expired sessions from the front.
 */
module SessionHistory {
  import opened Common

  class Session {
    const id: int
    var state: SessionState

    constructor (id: int)
      ensures this.id == id && state == SessionCreated
    {
      this.id := id;
      state := SessionCreated;
    }
  }

  /** How many sessions an eviction removes, given which sessions of the list are finished. */
  function Evicted(finished: seq<bool>, limit: nat): (k: nat)
    ensures k <= |finished|
    ensures k == 0 || |finished| - k >= limit
    ensures forall j | 0 <= j < k :: finished[j]
    ensures |finished| - k <= limit || !finished[k]
  {
    if |finished| > limit && finished[0] then
      var rest := Evicted(finished[1..], limit);
      assert forall j | 1 <= j <= rest :: finished[j] == finished[1..][j - 1];
      1 + rest
    else 0
  }

  /** The three clauses of Evicted pin the number down. */
  lemma EvictedIsUnique(finished: seq<bool>, limit: nat, k: nat)
    requires k <= |finished|
    requires k == 0 || |finished| - k >= limit
    requires forall j | 0 <= j < k :: finished[j]
    requires |finished| - k <= limit || !finished[k]
    ensures k == Evicted(finished, limit)
  {
    var e := Evicted(finished, limit);
    assert !(k < e);
    assert !(e < k);
  }

  class History {
    var list: seq<Session>
    var byId: map<int, Session>
    var limit: nat

    /** The list and the map hold the same sessions, under distinct IDs. */
    ghost predicate Valid()
      reads this
    {
      && 1 <= limit <= SESSION_MAP_SIZE
      && (forall i, j | 0 <= i < j < |list| :: list[i].id != list[j].id)
      && (forall i | 0 <= i < |list| :: list[i].id in byId && byId[list[i].id] == list[i])
      && (forall id | id in byId :: byId[id] in list && byId[id].id == id)
    }

    ghost function Finished(): (r: seq<bool>)
      reads this, list
      ensures |r| == |list|
    {
      seq(|list|, i requires 0 <= i < |list| reads this, list => Terminal(list[i].state))
    }

    constructor ()
      ensures Valid() && list == [] && limit == 10
    {
      list, byId, limit := [], map[], 10;
    }

    method DeleteExpiredSessions()
      requires Valid()
      modifies this`list, this`byId
      ensures Valid() && limit == old(limit)
      ensures list == old(list)[Evicted(old(Finished()), limit)..]
    {
      var maxIterations := |list|;
      var iterations := 0;
      ghost var flags := Finished();
      while |list| > limit && iterations < maxIterations
        invariant Valid() && limit == old(limit)
        invariant 0 <= iterations <= maxIterations == |flags| && list == old(list)[iterations..]
        invariant iterations == 0 || |flags| - iterations >= limit
        invariant forall j | 0 <= j < iterations :: flags[j]
      {
        var first := list[0];
        if first.state.SessionCreated? || first.state.SessionRunning? {
          assert first == old(list)[iterations] && !flags[iterations];
          break;
        }
        assert first == old(list)[iterations];
        RemoveFirst(first);
        iterations := iterations + 1;
      }
      EvictedIsUnique(flags, limit, iterations);
    }

    /** pop_front() and erase() of the front session. */
    method RemoveFirst(first: Session)
      requires Valid() && list != [] && first == list[0]
      modifies this`list, this`byId
      ensures Valid() && list == old(list)[1..] && byId == old(byId) - {first.id}
    {
      list := list[1..];
      byId := byId - {first.id};
      forall id | id in byId ensures byId[id] in list && byId[id].id == id {
        assert byId[id] in old(list);
      }
    }

    /** addSessionToSessionHistory() */
    method AddSession(session: Session)
      requires Valid()
      modifies this`list, this`byId
      ensures Valid() && limit == old(limit)
      ensures session.id in old(byId) ==> list == old(list) && byId == old(byId)
      ensures session.id !in old(byId) ==>
        var flags := old(Finished()) + [Terminal(session.state)];
        list == (old(list) + [session])[Evicted(flags, limit)..]
      ensures session.id !in old(byId) ==> session.id in byId && byId[session.id] == session
    {
      if session.id !in byId {
        ghost var flags := Finished();
        byId := byId[session.id := session];
        list := list + [session];
        assert forall id | id in byId :: byId[id] in list && byId[id].id == id by {
          assert list[|list| - 1] == session;
          forall id | id in byId && id != session.id ensures byId[id] in list {
            assert byId[id] in old(list);
          }
        }
        assert Finished() == flags + [Terminal(session.state)];
        label Added:
        ghost var all := list;
        ghost var k := Evicted(Finished(), limit);
        assert k < |all|;
        DeleteExpiredSessions();
        assert list[|list| - 1] == session;
      }
    }

    method SetSessionHistorySize(size: int)
      requires Valid()
      modifies this
      ensures Valid()
      ensures limit == if size >= SESSION_MAP_SIZE then SESSION_MAP_SIZE else if size > 0 then size else old(limit)
      ensures list == old(list)[Evicted(old(Finished()), limit)..]
    {
      if size >= SESSION_MAP_SIZE {
        limit := SESSION_MAP_SIZE;
      } else if size > 0 {
        limit := size;
      }
      assert Finished() == old(Finished());
      DeleteExpiredSessions();
    }

    method ClearSessions()
      requires Valid()
      modifies this`list, this`byId
      ensures Valid() && list == [] && byId == map[] && limit == old(limit)
    {
      list, byId := [], map[];
    }

    /** getSession(): the map lookup finds exactly the sessions of the list. */
    method GetSession(id: int) returns (session: Session?)
      requires Valid()
      ensures session != null ==> session in list && session.id == id
      ensures session == null ==> forall s | s in list :: s.id != id
    {
      if id in byId {
        return byId[id];
      }
      return null;
    }
  }

  /** Once every session has finished, an eviction leaves no more than the limit, and the newest ones. */
  lemma AllFinishedFits(finished: seq<bool>, limit: nat)
    requires forall i | 0 <= i < |finished| :: finished[i]
    ensures Evicted(finished, limit) == if |finished| > limit then |finished| - limit else 0
  {
    EvictedIsUnique(finished, limit, if |finished| > limit then |finished| - limit else 0);
  }

  /** An unfinished session, wherever it is in the list, shields itself and everything after it. */
  lemma UnfinishedShields(finished: seq<bool>, limit: nat, i: nat)
    requires i < |finished| && !finished[i]
    ensures Evicted(finished, limit) <= i
  {
  }
}
