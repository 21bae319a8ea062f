/** StateRegistry.scala: which session owns which state. */
module StateRegistry {
  import opened RepairModel
  import opened ProverStates
  import Sessions = IsabelleSession

  type SessionId = nat

  predicate Owns(owners: map<StateId, SessionId>, sessionId: SessionId, id: StateId) {
    id in owners && owners[id] == sessionId
  }

  /** The ids of a request by owner, each once; ids without an owner are left out. */
  function GroupByOwner(owners: map<StateId, SessionId>, ids: seq<StateId>): (g: map<SessionId, seq<StateId>>)
    ensures forall sid :: sid in g ==> forall id :: id in g[sid] <==> id in ids && Owns(owners, sid, id)
    ensures forall sid :: sid !in g ==> forall id :: id in ids ==> !Owns(owners, sid, id)
    ensures forall sid :: sid in g ==> g[sid] != [] && forall i, j :: 0 <= i < j < |g[sid]| ==> g[sid][i] != g[sid][j]
  {
    if ids == [] then map[]
    else
      var n := |ids| - 1;
      var g := GroupByOwner(owners, ids[..n]);
      var id := ids[n];
      assert forall i :: i in ids <==> i in ids[..n] || i == id;
      if id !in owners then g
      else
        var sid := owners[id];
        if sid !in g then g[sid := [id]]
        else if id in g[sid] then g
        else g[sid := g[sid] + [id]]
  }

  class StateRegistry {
    var stateOwnerMap: map<StateId, SessionId>

    constructor ()
      ensures stateOwnerMap == map[]
    {
      stateOwnerMap := map[];
    }

    /** The registry and the session agree on what the session owns. */
    ghost predicate Synced(sessionId: SessionId, session: Sessions.IsabelleSession)
      reads this, session
    {
      forall id :: Owns(stateOwnerMap, sessionId, id) <==> id in session.stateMap
    }

    function OwnerOf(stateId: StateId): Option<SessionId>
      reads this
    {
      if stateId in stateOwnerMap then Some(stateOwnerMap[stateId]) else None
    }

    method RegisterState(sessionId: SessionId, stateId: StateId, session: Sessions.IsabelleSession,
                         state: ToplevelState, cacheKey: Option<Sessions.CacheKey>)
      requires session.Valid() && Synced(sessionId, session)
      requires stateId !in stateOwnerMap && stateId !in session.stateMap
      requires cacheKey.Some? ==> session.MayStore(cacheKey.value, state)
      modifies this, session`stateMap, session`initCache, session`initCacheKeys, session`negative
      ensures session.Valid() && Synced(sessionId, session)
      ensures session.stateMap == old(session.stateMap)[stateId := state]
      ensures stateOwnerMap == old(stateOwnerMap)[stateId := sessionId]
      ensures session.initCache == if cacheKey.Some? then old(session.initCache)[cacheKey.value := stateId]
                                   else old(session.initCache)
      ensures session.initCacheKeys == if cacheKey.Some? then old(session.initCacheKeys)[stateId := cacheKey.value]
                                       else old(session.initCacheKeys)
      ensures session.negative == if cacheKey.Some? && cacheKey.value.line < 0
                                  then old(session.negative) + {cacheKey.value.path} else old(session.negative)
    {
      session.StoreStateLocal(stateId, state, cacheKey);
      stateOwnerMap := stateOwnerMap[stateId := sessionId];
    }

    predicate IsLiveStateInSession(sessionId: SessionId, stateId: StateId, session: Sessions.IsabelleSession)
      reads this, session
    {
      OwnerOf(stateId) == Some(sessionId) && stateId in session.stateMap
    }

    method DropStateIfOwned(sessionId: SessionId, stateId: StateId, session: Sessions.IsabelleSession)
        returns (removed: bool)
      requires session.Valid() && Synced(sessionId, session)
      modifies this, session`stateMap, session`initCache, session`initCacheKeys
      ensures session.Valid() && Synced(sessionId, session)
      ensures removed == Owns(old(stateOwnerMap), sessionId, stateId)
      ensures stateOwnerMap == if removed then old(stateOwnerMap) - {stateId} else old(stateOwnerMap)
      ensures session.stateMap == old(session.stateMap) - {stateId}
      ensures session.initCache == if removed && stateId in old(session.initCacheKeys)
                                   then old(session.initCache) - {old(session.initCacheKeys)[stateId]}
                                   else old(session.initCache)
    {
      removed := stateId in stateOwnerMap && stateOwnerMap[stateId] == sessionId;
      if removed {
        stateOwnerMap := stateOwnerMap - {stateId};
        session.DropStateLocal([stateId]);
      }
      assert session.stateMap == old(session.stateMap) - {stateId};
    }

    method DropAllStatesForSession(sessionId: SessionId, session: Sessions.IsabelleSession)
      requires session.Valid() && Synced(sessionId, session)
      modifies this, session`stateMap, session`initCache, session`initCacheKeys
      ensures session.Valid() && Synced(sessionId, session) && session.stateMap == map[] && session.initCache == map[]
      ensures forall id :: id in stateOwnerMap <==> id in old(stateOwnerMap) && old(stateOwnerMap)[id] != sessionId
      ensures forall id :: id in stateOwnerMap ==> stateOwnerMap[id] == old(stateOwnerMap)[id]
    {
      var stateIds := set id | id in stateOwnerMap && stateOwnerMap[id] == sessionId;
      while stateIds != {}
        modifies this
        invariant forall id :: id in stateIds ==> Owns(stateOwnerMap, sessionId, id)
        invariant forall id :: Owns(stateOwnerMap, sessionId, id) ==> id in stateIds
        invariant forall id :: id in stateOwnerMap ==>
          id in old(stateOwnerMap) && stateOwnerMap[id] == old(stateOwnerMap)[id]
        invariant forall id :: id in old(stateOwnerMap) && old(stateOwnerMap)[id] != sessionId ==> id in stateOwnerMap
        decreases stateIds
      {
        assert (forall id :: id !in stateIds) ==> stateIds == {};
        var stateId :| stateId in stateIds;
        if stateId in stateOwnerMap && stateOwnerMap[stateId] == sessionId {
          stateOwnerMap := stateOwnerMap - {stateId};
        }
        stateIds := stateIds - {stateId};
      }
      assert forall id :: id in stateOwnerMap ==> !Owns(stateOwnerMap, sessionId, id);
      session.DropAllStatesLocal();
    }
  }
}
