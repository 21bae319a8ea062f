/** IsabelleReplServer.scala: what each request does while it holds the lock of its session. How requests
    interleave before they get the lock is the subject of ServerInterleaving. */
module IsabelleReplServer {
  import opened RepairModel
  import opened ProverStates
  import opened ReplayPlanner
  import opened IsabelleSession
  import Registry = StateRegistry

  class ManagedSession {
    const sessionId: Registry.SessionId
    const session: IsabelleSession
    var closing: bool

    constructor (sessionId: Registry.SessionId, session: IsabelleSession)
      ensures this.sessionId == sessionId && this.session == session && !closing
    {
      this.sessionId, this.session, closing := sessionId, session, false;
    }
  }

  datatype InitStateResponse =
    | InitSuccess(result: StateResult)
    | InitError(failedLine: int, lastSuccess: Option<StateResult>, code: InitStateErrorCode, candidateLines: seq<int>)

  /** What the client of an execution is told: its own model of the server says the same. */
  function Described(id: StateId, c: ComputedState): StateResult {
    StateResult(id, c.status, c.state.mode, c.state.proofLevel)
  }

  predicate HasFailed(r: StateResult) {
    r.status.Error? || r.status.Timeout?
  }

  class IsabelleReplService {
    const registry: Registry.StateRegistry
    var sessionMap: map<Registry.SessionId, ManagedSession>
    var nextStateId: StateId  // the source draws random UUIDs

    constructor ()
      ensures fresh(registry) && registry.stateOwnerMap == map[] && sessionMap == map[]
    {
      registry := new Registry.StateRegistry();
      sessionMap := map[];
      nextStateId := 0;
    }

    /** What holds of a session whenever its lock is free. */
    ghost predicate Ready(managed: ManagedSession)
      reads this, registry, managed, managed.session
    {
      && managed.session.Valid()
      && registry.Synced(managed.sessionId, managed.session)
      && (forall id :: id in registry.stateOwnerMap ==> id < nextStateId)
    }

    /** Other sessions keep their states. */
    twostate predicate OthersKept(managed: ManagedSession)
      reads this, registry
    {
      forall id :: (id in old(registry.stateOwnerMap) && old(registry.stateOwnerMap)[id] != managed.sessionId)
                   || (id in registry.stateOwnerMap && registry.stateOwnerMap[id] != managed.sessionId)
        ==> id in old(registry.stateOwnerMap) && id in registry.stateOwnerMap
            && registry.stateOwnerMap[id] == old(registry.stateOwnerMap)[id]
    }

    method RegisterStateLocked(managed: ManagedSession, state: ToplevelState, cacheKey: Option<CacheKey>)
        returns (stateId: StateId)
      requires Ready(managed) && (cacheKey.Some? ==> managed.session.MayStore(cacheKey.value, state))
      modifies this`nextStateId, registry
      modifies managed.session`stateMap, managed.session`initCache, managed.session`initCacheKeys
      modifies managed.session`negative
      ensures Ready(managed) && OthersKept(managed)
      ensures stateId !in old(managed.session.stateMap) && stateId >= old(nextStateId)
      ensures stateId < nextStateId
      ensures managed.session.initCache ==
              if cacheKey.Some? then old(managed.session.initCache)[cacheKey.value := stateId]
              else old(managed.session.initCache)
      ensures managed.session.negative == if cacheKey.Some? && cacheKey.value.line < 0
                                          then old(managed.session.negative) + {cacheKey.value.path}
                                          else old(managed.session.negative)
      ensures managed.session.stateMap == old(managed.session.stateMap)[stateId := state]
    {
      stateId := nextStateId;
      nextStateId := nextStateId + 1;
      assert !Registry.Owns(registry.stateOwnerMap, managed.sessionId, stateId);
      registry.RegisterState(managed.sessionId, stateId, managed.session, state, cacheKey);
    }

    /** An init answer adds the one state that it names, if it names any. */
    method RespondInit(managed: ManagedSession, computed: ComputedInitState) returns (response: InitStateResponse)
      requires Ready(managed)
      requires computed.ComputedInitSuccess? ==> managed.session.MayStore(computed.cacheKey, computed.state)
      modifies this`nextStateId, registry
      modifies managed.session`stateMap, managed.session`initCache, managed.session`initCacheKeys
      modifies managed.session`negative
      ensures Ready(managed) && OthersKept(managed)
      ensures managed.session.negative == old(managed.session.negative) + NewNegative(computed)
      ensures RespondsTo(computed, response, old(managed.session.stateMap), managed.session.stateMap)
      ensures managed.session.initCache ==
              if computed.ComputedInitSuccess?
              then old(managed.session.initCache)[computed.cacheKey := response.result.stateId]
              else old(managed.session.initCache)
    {
      match computed
      case ComputedInitSuccess(state, key) =>
        var id := RegisterStateLocked(managed, state, Some(key));
        response := InitSuccess(Described(id, ComputedState(state, Success)));
      case ComputedInitFailure(line, lastSuccess, code, lines) =>
        if lastSuccess.None? {
          response := InitError(line, None, code, lines);
        } else {
          var id := RegisterStateLocked(managed, lastSuccess.value, None);
          response := InitError(line, Some(Described(id, ComputedState(lastSuccess.value, Success))), code, lines);
        }
    }

    /** The answer tells what a replay from scratch tells, as far as its time goes; see IsAnswer. */
    method InitStateLocked(managed: ManagedSession, path: Path, position: Position, timeoutMs: int)
        returns (response: InitStateResponse, ghost computed: ComputedInitState, ghost start: int)
      requires Ready(managed)
      modifies this`nextStateId, registry, managed.session
      ensures Ready(managed) && OthersKept(managed) && path in managed.session.theoryCache
      ensures managed.session.theoryCache ==
              if path in old(managed.session.theoryCache) then old(managed.session.theoryCache)
              else
                var commands := managed.session.readTheory(old(managed.session.clock), path);
                old(managed.session.theoryCache)[path := commands]
      ensures managed.session.negative == old(managed.session.negative) + NewNegative(computed)
      ensures RespondsTo(computed, response, old(managed.session.stateMap), managed.session.stateMap)
      ensures managed.session.initCache ==
              if computed.ComputedInitSuccess?
              then old(managed.session.initCache)[computed.cacheKey := response.result.stateId]
              else old(managed.session.initCache)
      ensures start == 0 || CacheKey(path, start) in old(managed.session.initCache)
      ensures
        match ResolveTargetLine(managed.session.theoryCache[path], managed.session.normalize, position)
        case NotFound(_) => computed == ComputedInitFailure(0, None, InitNotFound, [])
        case Ambiguous(_, lines) => computed == ComputedInitFailure(0, None, InitAmbiguous, lines)
        case Target(line) =>
          && LatestIn(old(managed.session.initCache), CacheKey(path, line), start)
          && (computed.ComputedInitSuccess? ==> computed.cacheKey == CacheKey(path, line))
          && (managed.session.Replayable(path) ==>
                IsAnswer(managed.session.isabelle, managed.session.theoryCache[path], computed, CacheKey(path, line),
                         start, timeoutMs))
    {
      var answer;
      answer, start := managed.session.ComputeInitState(path, position, timeoutMs);
      computed := answer;
      response := RespondInit(managed, answer);
    }

    /** An execution adds the one state that it names: the state the tactic leads to, or the source state
        again if it fails. Nothing that was live changes. */
    method ExecuteLocked(managed: ManagedSession, sourceStateId: StateId, tactic: string, timeoutMs: int)
        returns (r: Option<StateResult>)
      requires Ready(managed) && sourceStateId in managed.session.stateMap
      modifies this`nextStateId, registry
      modifies managed.session`stateMap, managed.session`initCache, managed.session`initCacheKeys
      modifies managed.session`negative
      ensures Ready(managed) && OthersKept(managed) && managed.session.negative == old(managed.session.negative)
      ensures managed.session.initCache.Keys <= old(managed.session.initCache).Keys
      ensures Runs(managed.session.isabelle, old(managed.session.stateMap), sourceStateId, tactic, timeoutMs, r,
                   managed.session.stateMap)
    {
      var computed := managed.session.ComputeExecute(sourceStateId, tactic, timeoutMs);
      if computed.None? {
        return None;
      }
      var id := RegisterStateLocked(managed, computed.value.state, None);
      r := Some(Described(id, computed.value));
    }

    /** A batch adds one state a tactic; with `dropFailed` the failed ones are gone again. */
    method ExecuteBatchLocked(managed: ManagedSession, sourceStateId: StateId, tactics: seq<string>, timeoutMs: int,
                              dropFailed: bool)
        returns (r: Option<seq<StateResult>>)
      requires Ready(managed) && sourceStateId in managed.session.stateMap
      modifies this`nextStateId, registry
      modifies managed.session`stateMap, managed.session`initCache, managed.session`initCacheKeys
      modifies managed.session`negative
      ensures Ready(managed) && OthersKept(managed) && managed.session.negative == old(managed.session.negative)
      ensures managed.session.initCache.Keys <= old(managed.session.initCache).Keys
      ensures RunsBatch(managed.session.isabelle, old(managed.session.stateMap), sourceStateId, tactics, timeoutMs,
                        dropFailed, r, managed.session.stateMap)
    {
      var computed := managed.session.ComputeExecuteBatch(sourceStateId, tactics, timeoutMs);
      if computed.None? {
        return None;
      }
      var results := RegisterAll(managed, computed.value);
      if dropFailed {
        DropFailed(managed, results);
      }
      r := Some(results);
    }

    method RegisterAll(managed: ManagedSession, computed: seq<ComputedState>) returns (results: seq<StateResult>)
      requires Ready(managed)
      modifies this`nextStateId, registry
      modifies managed.session`stateMap, managed.session`initCache, managed.session`initCacheKeys
      modifies managed.session`negative
      ensures Ready(managed) && OthersKept(managed) && managed.session.negative == old(managed.session.negative)
      ensures managed.session.initCache.Keys <= old(managed.session.initCache).Keys
      ensures Kept(old(managed.session.stateMap), managed.session.stateMap)
      ensures Adds(old(managed.session.stateMap), managed.session.stateMap, results)
      ensures |results| == |computed|
      ensures forall i :: 0 <= i < |results| ==>
        && results[i] == Described(results[i].stateId, computed[i])
        && results[i].stateId in managed.session.stateMap
        && managed.session.stateMap[results[i].stateId] == computed[i].state
    {
      results := [];
      for i := 0 to |computed|
        invariant Ready(managed) && OthersKept(managed) && old(nextStateId) <= nextStateId
        invariant managed.session.negative == old(managed.session.negative)
        invariant managed.session.initCache.Keys <= old(managed.session.initCache).Keys
        invariant Kept(old(managed.session.stateMap), managed.session.stateMap)
        invariant |results| == i && Adds(old(managed.session.stateMap), managed.session.stateMap, results)
        invariant forall j :: 0 <= j < i ==>
          && results[j] == Described(results[j].stateId, computed[j])
          && results[j].stateId < nextStateId
          && results[j].stateId in managed.session.stateMap
          && managed.session.stateMap[results[j].stateId] == computed[j].state
      {
        ghost var live := managed.session.stateMap;
        var id := RegisterStateLocked(managed, computed[i].state, None);
        AddsOneMore(old(managed.session.stateMap), live, results, Described(id, computed[i]), computed[i].state);
        results := results + [Described(id, computed[i])];
      }
    }

    method DropFailed(managed: ManagedSession, results: seq<StateResult>)
      requires Ready(managed) && DistinctIds(results)
      modifies registry
      modifies managed.session`stateMap, managed.session`initCache, managed.session`initCacheKeys
      ensures Ready(managed) && OthersKept(managed)
      ensures Kept(managed.session.stateMap, old(managed.session.stateMap))
      ensures managed.session.initCache.Keys <= old(managed.session.initCache).Keys
      ensures forall id :: id in old(managed.session.stateMap) ==>
        (id in managed.session.stateMap <==> forall i :: 0 <= i < |results| && results[i].stateId == id ==>
            !HasFailed(results[i]))
    {
      for i := 0 to |results|
        invariant Ready(managed) && OthersKept(managed)
        invariant Kept(managed.session.stateMap, old(managed.session.stateMap))
        invariant managed.session.initCache.Keys <= old(managed.session.initCache).Keys
        invariant forall id :: id in old(managed.session.stateMap) ==>
          (id in managed.session.stateMap <==> forall j :: 0 <= j < i && results[j].stateId == id ==>
              !HasFailed(results[j]))
      {
        if HasFailed(results[i]) {
          DropStateLocked(managed, results[i].stateId);
        }
      }
    }

    method DropStateLocked(managed: ManagedSession, stateId: StateId)
      requires Ready(managed)
      modifies registry
      modifies managed.session`stateMap, managed.session`initCache, managed.session`initCacheKeys
      ensures Ready(managed) && OthersKept(managed)
      ensures managed.session.stateMap == old(managed.session.stateMap) - {stateId}
      ensures managed.session.initCache.Keys <= old(managed.session.initCache).Keys
    {
      var _ := registry.DropStateIfOwned(managed.sessionId, stateId, managed.session);
    }

    /** What a drop request does to one of the sessions it groups its ids by. */
    method DropStatesLocked(managed: ManagedSession, stateIds: seq<StateId>)
      requires Ready(managed)
      modifies registry
      modifies managed.session`stateMap, managed.session`initCache, managed.session`initCacheKeys
      ensures Ready(managed) && OthersKept(managed)
      ensures Kept(managed.session.stateMap, old(managed.session.stateMap))
      ensures managed.session.initCache.Keys <= old(managed.session.initCache).Keys
      ensures forall id :: id in old(managed.session.stateMap) ==> (id in managed.session.stateMap <==> id !in stateIds)
    {
      for i := 0 to |stateIds|
        invariant Ready(managed) && OthersKept(managed)
        invariant Kept(managed.session.stateMap, old(managed.session.stateMap))
        invariant managed.session.initCache.Keys <= old(managed.session.initCache).Keys
        invariant forall id :: id in old(managed.session.stateMap) ==> (id in managed.session.stateMap <==>
            id !in stateIds[..i])
      {
        DropStateLocked(managed, stateIds[i]);
      }
      assert stateIds[..|stateIds|] == stateIds;
    }

    method DropAllStatesLocked(managed: ManagedSession)
      requires Ready(managed)
      modifies registry
      modifies managed.session`stateMap, managed.session`initCache, managed.session`initCacheKeys
      ensures Ready(managed) && OthersKept(managed)
      ensures managed.session.stateMap == map[] && managed.session.initCache == map[]
    {
      registry.DropAllStatesForSession(managed.sessionId, managed.session);
    }

    /** Only the first request to destroy a session gets through: its states are gone, its prover is closed,
        and it is no longer found under its id. */
    method DestroyLocked(managed: ManagedSession) returns (destroyed: bool)
      requires Ready(managed)
      modifies this`sessionMap, registry, managed
      modifies managed.session`stateMap, managed.session`initCache, managed.session`initCacheKeys
      modifies managed.session`closed
      ensures Ready(managed) && OthersKept(managed) && managed.closing
      ensures destroyed == !old(managed.closing)
      ensures managed.session.stateMap == if destroyed then map[] else old(managed.session.stateMap)
      ensures managed.session.closed == (destroyed || old(managed.session.closed))
      ensures sessionMap == if destroyed && managed.sessionId in old(sessionMap)
                               && old(sessionMap)[managed.sessionId] == managed
                            then old(sessionMap) - {managed.sessionId} else old(sessionMap)
    {
      if managed.closing {
        return false;
      }
      managed.closing := true;
      DropAllStatesLocked(managed);
      managed.session.Close();
      if managed.sessionId in sessionMap && sessionMap[managed.sessionId] == managed {
        sessionMap := sessionMap - {managed.sessionId};
      }
      return true;
    }

    // ------------------------------------------------------------ histories

    /** One request about a session, from the point where it has got the lock. An init request starts at a
        checkpoint, and only an init request that succeeds leaves a new one. */
    method Serve(managed: ManagedSession, request: Request) returns (response: Response, ghost step: Step)
      requires Ready(managed)
      modifies this`nextStateId, registry, managed.session
      ensures Ready(managed) && OthersKept(managed)
      ensures TheoriesGrow(managed.session.readTheory, old(managed.session.theoryCache), managed.session.theoryCache)
      ensures IsNonNegative(request) ==> managed.session.negative == old(managed.session.negative)
      ensures forall key :: key in managed.session.initCache ==>
        || key in old(managed.session.initCache)
        || Leaves(Parsed(managed.session.theoryCache, managed.session.normalize), step, key)
      ensures step.request == request && step.response == response
      ensures response.Refused? <==> (old(managed.closing) && !request.DropStates?) || step.LacksSource()
      ensures step.before == old(managed.session.stateMap) && step.after == managed.session.stateMap
      ensures step.StartsAt(old(managed.session.initCache).Keys)
      ensures IsStep(managed.session.isabelle, Parsed(managed.session.theoryCache, managed.session.normalize), step,
                     request.InitState? && request.path in managed.session.theoryCache ==>
                       managed.session.Replayable(request.path))
    {
      step := Step(request, Refused, 0, NOTHING, managed.session.stateMap, managed.session.stateMap);
      if managed.closing && !request.DropStates? {
        response := Refused;
        return;
      }
      match request {
      case InitState(path, position, timeoutMs) =>
        var init;
        ghost var computed, start;
        init, computed, start := InitStateLocked(managed, path, position, timeoutMs);
        response := Inited(init);
        step := step.(start := start, computed := computed);
      case Execute(source, tactic, timeoutMs) =>
        if !registry.IsLiveStateInSession(managed.sessionId, source, managed.session) {
          response := Refused;
          return;
        }
        var result := ExecuteLocked(managed, source, tactic, timeoutMs);
        response := Ran(result);
      case ExecuteBatch(source, tactics, timeoutMs, dropFailed) =>
        if !registry.IsLiveStateInSession(managed.sessionId, source, managed.session) {
          response := Refused;
          return;
        }
        var results := ExecuteBatchLocked(managed, source, tactics, timeoutMs, dropFailed);
        response := RanBatch(results);
      case DropStates(ids) =>
        DropStatesLocked(managed, ids);
        response := Dropped;
      case DropAllStates =>
        DropAllStatesLocked(managed);
        response := Dropped;
      }
      step := step.(response := response, after := managed.session.stateMap);
    }

    /** Cache agreement over any history of a new session: whatever else was asked before and after, every
        init answer is true, the state that it names is the one it is about, and it is the answer of a replay
        from scratch iff the commands before the checkpoint it started at finish in time. That checkpoint is
        the target of an earlier init request that succeeded. Every other request did to the live states what
        it should. The commands have to be in order and the targets not negative. */
    method ServeAll(managed: ManagedSession, requests: seq<Request>)
        returns (responses: seq<Response>, ghost steps: seq<Step>)
      requires Ready(managed) && !managed.closing
      requires managed.session.theoryCache == map[] && managed.session.initCache == map[]
      requires managed.session.negative == {}
      requires forall n, path :: Ordered(managed.session.readTheory(n, path))
      requires forall i :: 0 <= i < |requests| ==> IsNonNegative(requests[i])
      modifies this`nextStateId, registry, managed.session
      ensures Ready(managed) && OthersKept(managed)
      ensures |responses| == |steps| == |requests|
      ensures forall i :: 0 <= i < |steps| ==> steps[i].request == requests[i] && steps[i].response == responses[i]
      ensures IsHistory(steps, old(managed.session.stateMap), managed.session.stateMap)
      ensures AllServed(managed.session.isabelle, Parsed(managed.session.theoryCache, managed.session.normalize), steps)
    {
      responses, steps := [], [];
      for i := 0 to |requests|
        invariant Serving(managed, steps) && OthersKept(managed)
        invariant |responses| == |steps| == i
        invariant forall j :: 0 <= j < i ==> steps[j].request == requests[j] && steps[j].response == responses[j]
        invariant IsHistory(steps, old(managed.session.stateMap), managed.session.stateMap)
      {
        var response;
        ghost var step;
        response, step := ServeNext(managed, requests[i], steps);
        HistoryGoesOn(steps, step, old(managed.session.stateMap));
        responses, steps := responses + [response], steps + [step];
      }
    }

    /** What a history of a session keeps. */
    ghost predicate Serving(managed: ManagedSession, steps: seq<Step>)
      reads this, registry, managed, managed.session
    {
      var session := managed.session;
      var parsed := Parsed(session.theoryCache, session.normalize);
      && Ready(managed) && !managed.closing && session.negative == {}
      && (forall path :: path in session.theoryCache ==> Ordered(session.theoryCache[path]))
      && AllTargets(parsed, steps, session.initCache.Keys) && AllServed(session.isabelle, parsed, steps)
    }

    method ServeNext(managed: ManagedSession, request: Request, ghost steps: seq<Step>)
        returns (response: Response, ghost step: Step)
      requires Serving(managed, steps) && IsNonNegative(request)
      requires forall n, path :: Ordered(managed.session.readTheory(n, path))
      modifies this`nextStateId, registry, managed.session
      ensures Serving(managed, steps + [step]) && OthersKept(managed)
      ensures step.request == request && step.response == response
      ensures step.before == old(managed.session.stateMap) && step.after == managed.session.stateMap
    {
      ghost var earlier := Parsed(managed.session.theoryCache, managed.session.normalize);
      ghost var checkpoints := managed.session.initCache.Keys;
      response, step := Serve(managed, request);
      OneMoreServed(managed.session.isabelle, earlier, Parsed(managed.session.theoryCache, managed.session.normalize),
                    steps, step, checkpoints, managed.session.initCache.Keys);
    }
  }

  /** What parsing knows about the requests of a history. */
  datatype Parsed = Parsed(theories: map<Path, seq<Transition>>, normalize: string -> string)

  /** A request and its response, with the live states before and after; for an init request also the answer
      that was computed, and the line of the checkpoint that it started at. */
  datatype Step = Step(request: Request, response: Response, start: int, computed: ComputedInitState,
                       before: map<StateId, ToplevelState>, after: map<StateId, ToplevelState>)
  {
    /** An init request starts from scratch or at one of these checkpoints. */
    predicate StartsAt(checkpoints: set<CacheKey>) {
      request.InitState? ==> start == 0 || CacheKey(request.path, start) in checkpoints
    }

    /** The request is about a state that the session does not have. */
    predicate LacksSource() {
      (request.Execute? || request.ExecuteBatch?) && request.source !in before
    }
  }

  const NOTHING := ComputedInitFailure(0, None, InitNotFound, [])

  /** Each step begins where the one before it ended. */
  ghost predicate IsHistory(steps: seq<Step>, first: map<StateId, ToplevelState>, last: map<StateId, ToplevelState>)
  {
    && (forall i :: 0 <= i < |steps| ==> steps[i].before == LiveAfter(steps, first, i))
    && last == LiveAfter(steps, first, |steps|)
  }

  /** What is live after the first `i` steps. */
  function LiveAfter(steps: seq<Step>, first: map<StateId, ToplevelState>, i: nat): map<StateId, ToplevelState>
    requires i <= |steps|
  {
    if i == 0 then first else steps[i - 1].after
  }

  lemma HistoryGoesOn(steps: seq<Step>, step: Step, first: map<StateId, ToplevelState>)
    requires IsHistory(steps, first, step.before)
    ensures IsHistory(steps + [step], first, step.after)
  {
    var more := steps + [step];
    forall i | 0 <= i < |more| ensures more[i].before == LiveAfter(more, first, i) {
      assert i < |steps| ==> more[i] == steps[i] && LiveAfter(more, first, i) == LiveAfter(steps, first, i);
    }
  }

  /** The key is that of an earlier request, one of the first `n`, that succeeded. */
  ghost predicate WasTarget(parsed: Parsed, steps: seq<Step>, n: nat, key: CacheKey)
    requires n <= |steps|
  {
    exists j :: 0 <= j < n && Leaves(parsed, steps[j], key)
  }

  ghost predicate IsServed(isabelle: Isabelle, parsed: Parsed, steps: seq<Step>, i: nat)
    requires i < |steps|
  {
    var step := steps[i];
    && IsStep(isabelle, parsed, step, true) && (step.response.Refused? <==> step.LacksSource())
    && (step.request.InitState? ==>
          step.start == 0 || WasTarget(parsed, steps, i, CacheKey(step.request.path, step.start)))
  }

  ghost predicate AllServed(isabelle: Isabelle, parsed: Parsed, steps: seq<Step>) {
    forall i :: 0 <= i < |steps| ==> IsServed(isabelle, parsed, steps, i)
  }

  ghost predicate AllTargets(parsed: Parsed, steps: seq<Step>, checkpoints: set<CacheKey>) {
    forall key :: key in checkpoints ==> WasTarget(parsed, steps, |steps|, key)
  }

  /** Theories that stay as they are keep what is known about earlier requests. */
  lemma TargetKept(earlier: Parsed, parsed: Parsed, steps: seq<Step>, step: Step, n: nat, key: CacheKey)
    requires parsed.normalize == earlier.normalize
    requires forall path :: path in earlier.theories ==>
               path in parsed.theories && parsed.theories[path] == earlier.theories[path]
    requires n <= |steps| && WasTarget(earlier, steps, n, key)
    ensures WasTarget(parsed, steps + [step], n, key)
  {
    var j :| 0 <= j < n && Leaves(earlier, steps[j], key);
    assert Leaves(parsed, (steps + [step])[j], key);
  }

  lemma ServedKept(isabelle: Isabelle, earlier: Parsed, parsed: Parsed, steps: seq<Step>, step: Step, i: nat)
    requires parsed.normalize == earlier.normalize
    requires forall path :: path in earlier.theories ==>
               path in parsed.theories && parsed.theories[path] == earlier.theories[path]
    requires i < |steps| && IsServed(isabelle, earlier, steps, i)
    ensures IsServed(isabelle, parsed, steps + [step], i)
  {
    var key := CacheKey(if steps[i].request.InitState? then steps[i].request.path else "", steps[i].start);
    if WasTarget(earlier, steps, i, key) { TargetKept(earlier, parsed, steps, step, i, key); }
  }

  lemma OneMoreServed(isabelle: Isabelle, earlier: Parsed, parsed: Parsed, steps: seq<Step>, step: Step,
                      before: set<CacheKey>, after: set<CacheKey>)
    requires parsed.normalize == earlier.normalize
    requires forall path :: path in earlier.theories ==>
               path in parsed.theories && parsed.theories[path] == earlier.theories[path]
    requires AllServed(isabelle, earlier, steps) && AllTargets(earlier, steps, before)
    requires IsStep(isabelle, parsed, step, true) && step.StartsAt(before)
    requires step.response.Refused? <==> step.LacksSource()
    requires forall key :: key in after ==> key in before || Leaves(parsed, step, key)
    ensures AllServed(isabelle, parsed, steps + [step]) && AllTargets(parsed, steps + [step], after)
  {
    var more := steps + [step];
    forall key | key in before ensures WasTarget(parsed, more, |steps|, key) {
      TargetKept(earlier, parsed, steps, step, |steps|, key);
    }
    forall i | 0 <= i < |more| ensures IsServed(isabelle, parsed, more, i) {
      if i < |steps| { ServedKept(isabelle, earlier, parsed, steps, step, i); }
    }
    forall key | key in after ensures WasTarget(parsed, more, |more|, key) {
      if key in before {
        var j :| 0 <= j < |steps| && Leaves(parsed, more[j], key);
      } else {
        assert Leaves(parsed, more[|steps|], key);
      }
    }
  }

  datatype Request =
    | InitState(path: Path, position: Position, timeoutMs: int)
    | Execute(source: StateId, tactic: string, timeoutMs: int)
    | ExecuteBatch(source: StateId, tactics: seq<string>, timeoutMs: int, dropFailed: bool)
    | DropStates(ids: seq<StateId>)
    | DropAllStates

  datatype Response =
    | Inited(init: InitStateResponse)
    | Ran(result: Option<StateResult>)
    | RanBatch(results: Option<seq<StateResult>>)
    | Dropped
    | Refused

  predicate IsNonNegative(request: Request) {
    request.InitState? && request.position.AfterLine? ==> request.position.line >= 0
  }

  /** Theories stay as they were parsed; new ones are what their files contain at some time. */
  ghost predicate TheoriesGrow(readTheory: (nat, Path) -> seq<Transition>, before: map<Path, seq<Transition>>,
                               after: map<Path, seq<Transition>>)
  {
    && (forall path :: path in before ==> path in after && after[path] == before[path])
    && (forall path :: path in after && path !in before ==> exists n :: after[path] == readTheory(n, path))
  }

  function NewNegative(computed: ComputedInitState): set<Path> {
    if computed.ComputedInitSuccess? && computed.cacheKey.line < 0 then {computed.cacheKey.path} else {}
  }

  /** The request leaves a checkpoint with this key. */
  ghost predicate Leaves(parsed: Parsed, step: Step, key: CacheKey) {
    && step.request.InitState? && step.request.path in parsed.theories
    && step.response.Inited? && step.response.init.InitSuccess?
    && key.path == step.request.path
    && ResolveTargetLine(parsed.theories[step.request.path], parsed.normalize, step.request.position) ==
       Target(key.line)
  }

  /** The response passes on what was computed. */
  predicate Tells(response: InitStateResponse, computed: ComputedInitState) {
    match computed
    case ComputedInitSuccess(state, _) =>
      response.InitSuccess? && response.result == Described(response.result.stateId, ComputedState(state, Success))
    case ComputedInitFailure(line, None, code, lines) =>
      response == InitError(line, None, code, lines)
    case ComputedInitFailure(line, Some(last), code, lines) =>
      && response.InitError? && response.lastSuccess.Some?
      && response == InitError(line, Some(Described(response.lastSuccess.value.stateId, ComputedState(last, Success))),
                               code, lines)
  }

  /** What an init request whose replay starts at line `start` is answered about the commands of its theory. */
  ghost predicate AnswersRequest(isabelle: Isabelle, commands: seq<Transition>, normalize: string -> string,
                                 request: Request, start: int, computed: ComputedInitState)
    requires request.InitState?
  {
    match ResolveTargetLine(commands, normalize, request.position)
    case NotFound(_) => computed == ComputedInitFailure(0, None, InitNotFound, [])
    case Ambiguous(_, lines) => computed == ComputedInitFailure(0, None, InitAmbiguous, lines)
    case Target(line) =>
      && (start == 0 || start <= line)
      && IsAnswer(isabelle, commands, computed, CacheKey(request.path, line), start, request.timeoutMs)
  }

  /** Every state of `before` is in `after`, unchanged. */
  ghost predicate Kept(before: map<StateId, ToplevelState>, after: map<StateId, ToplevelState>) {
    forall id :: id in before ==> id in after && after[id] == before[id]
  }

  ghost predicate DistinctIds(results: seq<StateResult>) {
    forall i, j :: 0 <= i < j < |results| ==> results[i].stateId != results[j].stateId
  }

  /** The results name new states, each another one, and nothing else is new. */
  ghost predicate Adds(before: map<StateId, ToplevelState>, after: map<StateId, ToplevelState>,
                       results: seq<StateResult>)
  {
    && DistinctIds(results)
    && (forall i :: 0 <= i < |results| ==> results[i].stateId !in before)
    && (forall id :: id in after ==> id in before || exists i :: 0 <= i < |results| && results[i].stateId == id)
  }

  lemma AddsOneMore(before: map<StateId, ToplevelState>, after: map<StateId, ToplevelState>, results: seq<StateResult>,
                    r: StateResult, state: ToplevelState)
    requires Adds(before, after, results) && Kept(before, after) && r.stateId !in after
    requires forall i :: 0 <= i < |results| ==> results[i].stateId in after
    ensures Adds(before, after[r.stateId := state], results + [r])
  {
    var more := results + [r];
    forall id | id in after[r.stateId := state] && id !in before
      ensures exists i :: 0 <= i < |more| && more[i].stateId == id
    {
      if id == r.stateId {
        assert more[|results|].stateId == id;
      } else {
        var i :| 0 <= i < |results| && results[i].stateId == id;
        assert more[i].stateId == id;
      }
    }
  }

  /** The one new state is the one the tactic leads to, or the source state again if it fails; a tactic that
      cannot be parsed changes nothing. */
  ghost predicate Runs(isabelle: Isabelle, before: map<StateId, ToplevelState>, sourceStateId: StateId, tactic: string,
                       timeoutMs: int, r: Option<StateResult>, after: map<StateId, ToplevelState>)
    requires sourceStateId in before
  {
    var source := before[sourceStateId];
    match isabelle.parse(source, tactic)
    case None => r == None && after == before
    case Some(_) =>
      && r.Some? && r.value.stateId !in before && r.value.stateId in after
      && after == before[r.value.stateId := after[r.value.stateId]]
      && IsResult(isabelle, source, tactic, timeoutMs, r.value, after)
  }

  /** One new state a tactic, unless some tactic cannot be parsed; with `dropFailed` the failed ones are gone. */
  ghost predicate RunsBatch(isabelle: Isabelle, before: map<StateId, ToplevelState>, sourceStateId: StateId,
                            tactics: seq<string>, timeoutMs: int, dropFailed: bool, r: Option<seq<StateResult>>,
                            after: map<StateId, ToplevelState>)
    requires sourceStateId in before
  {
    var source := before[sourceStateId];
    && (r.None? ==> after == before)
    && (r.None? <==> exists i :: 0 <= i < |tactics| && isabelle.parse(source, tactics[i]).None?)
    && (r.Some? ==>
          && Kept(before, after) && Adds(before, after, r.value)
          && |r.value| == |tactics|
          && forall i :: 0 <= i < |tactics| ==>
               && IsResult(isabelle, source, tactics[i], timeoutMs, r.value[i], after)
               && (r.value[i].stateId in after <==> r.value[i].IsSuccess() || !dropFailed))
  }

  /** What a request does to the live states, and what its response tells of it. */
  ghost predicate IsStep(isabelle: Isabelle, parsed: Parsed, step: Step, replayable: bool) {
    if step.response.Refused? then step.after == step.before
    else
      match step.request
      case InitState(path, _, _) =>
        && path in parsed.theories && step.response.Inited?
        && RespondsTo(step.computed, step.response.init, step.before, step.after)
        && (replayable ==>
              AnswersRequest(isabelle, parsed.theories[path], parsed.normalize, step.request, step.start,
                             step.computed))
      case Execute(source, tactic, timeoutMs) =>
        && source in step.before && step.response.Ran?
        && Runs(isabelle, step.before, source, tactic, timeoutMs, step.response.result, step.after)
      case ExecuteBatch(source, tactics, timeoutMs, dropFailed) =>
        && source in step.before && step.response.RanBatch?
        && RunsBatch(isabelle, step.before, source, tactics, timeoutMs, dropFailed, step.response.results, step.after)
      case DropStates(ids) =>
        && step.response.Dropped? && Kept(step.after, step.before)
        && forall id :: id in step.before ==> (id in step.after <==> id !in ids)
      case DropAllStates =>
        step.response.Dropped? && step.after == map[]
  }

  /** The result says what the commands of the tactic come to in the source state, whatever else is in the batch,
      and as long as its state is live it is that state. */
  ghost predicate IsResult(isabelle: Isabelle, source: ToplevelState, tactic: string, timeoutMs: int, r: StateResult,
                           live: map<StateId, ToplevelState>)
  {
    exists c ::
      && ComesFrom(isabelle, source, tactic, timeoutMs, c)
      && r.status == c.status && r.mode == c.state.mode && r.proofLevel == c.state.proofLevel
      && (r.stateId in live ==> live[r.stateId] == c.state)
  }

  /** That is what a client of the server takes an execution for: the outcome of the tactic, told as its own
      model of the server tells it. */
  lemma ClientIsRight(isabelle: Isabelle, source: ToplevelState, tactic: string, timeoutMs: int, r: StateResult,
                      live: map<StateId, ToplevelState>)
    requires IsResult(isabelle, source, tactic, timeoutMs, r, live)
    ensures var outcome := isabelle.AsyncExecute(isabelle.parse(source, tactic).value, source, timeoutMs);
            r == Result(r.stateId, source, outcome)
            && (r.stateId in live ==> live[r.stateId] == After(source, outcome))
  {
    var trs := isabelle.parse(source, tactic).value;
    isabelle.AsyncExecuteMeans(trs, source, timeoutMs);
  }

  /** The response passes on what was computed, and the one state it names, if any, is new. */
  ghost predicate RespondsTo(computed: ComputedInitState, response: InitStateResponse,
                             before: map<StateId, ToplevelState>, after: map<StateId, ToplevelState>)
  {
    && Tells(response, computed)
    && match computed
       case ComputedInitSuccess(state, _) =>
         response.result.stateId !in before && after == before[response.result.stateId := state]
       case ComputedInitFailure(_, None, _, _) =>
         after == before
       case ComputedInitFailure(_, Some(last), _, _) =>
         var id := response.lastSuccess.value.stateId;
         id !in before && after == before[id := last]
  }
}
