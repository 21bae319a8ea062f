/** IsabelleReplServer.scala and StateRegistry.scala: all interleavings of requests, one atomic access to a
    shared map, flag or lock at a time. */
module ServerInterleaving {
  import opened RepairModel
  import opened StateRegistry

  type ThreadId = nat

  /** What a request does once it holds the lock of its session. */
  datatype Task =
    | Init                            // init_state; the read-only session requests do less
    | Use(source: StateId)            // execute, execute_batch, run_sledgehammer, get_state_info
    | Drop(ids: seq<StateId>)         // drop_state, for the ids of one session
    | DropAll
    | Destroy

  /** Where a request stands. The constructors from Entered on hold the lock of `sid`. */
  datatype Pc =
    | OwnerLookup(source: StateId)
    | SessionLookup(sid: SessionId, task: Task)
    | Acquire(sid: SessionId, task: Task)
    | Entered(sid: SessionId, task: Task)
    | OwnerCheck(sid: SessionId, source: StateId)
    | LocalCheck(sid: SessionId, source: StateId)
    | Working(sid: SessionId, input: Option<StateId>, mine: set<StateId>)
    | Stored(sid: SessionId, input: Option<StateId>, mine: set<StateId>, id: StateId)
    | DisownedMine(sid: SessionId, input: Option<StateId>, mine: set<StateId>, id: StateId)
    | Dropping(sid: SessionId, ids: seq<StateId>)
    | Disowned(sid: SessionId, ids: seq<StateId>, id: StateId)
    | Scanning(sid: SessionId, present: set<StateId>, seen: set<StateId>, destroy: bool)
    | Forgetting(sid: SessionId, todo: set<StateId>, destroy: bool)
    | Clearing(sid: SessionId, destroy: bool)
    | Closing(sid: SessionId)
    | Unmapping(sid: SessionId)
    | Releasing(sid: SessionId)
    | Done

  function Holds(pc: Pc): Option<SessionId> {
    if pc.OwnerLookup? || pc.SessionLookup? || pc.Acquire? || pc.Done? then None else Some(pc.sid)
  }

  /** A managed session: its lock, its closing flag, how often it was closed, and its live states. What a
      state is does not matter here; two states are the same iff their numbers are. */
  datatype Session = Session(lock: Option<ThreadId>, closing: bool, closed: nat, local: map<StateId, int>)

  datatype World = World(
    registered: set<SessionId>,
    sessions: map<SessionId, Session>,
    owner: map<StateId, SessionId>,
    threads: map<ThreadId, Pc>,
    issued: set<StateId>)
  {
    function OwnedBy(sid: SessionId): set<StateId> {
      set id | id in owner && owner[id] == sid
    }

    /** Where the holder of the lock stands. */
    function Holder(sid: SessionId): Pc
      requires sid in sessions
    {
      var lock := sessions[sid].lock;
      if lock.Some? && lock.value in threads then threads[lock.value] else Done
    }

    function ViewOf(sid: SessionId): View
      requires sid in sessions
    {
      View(sessions[sid], OwnedBy(sid), Holder(sid), sid in registered)
    }
  }

  /** All that the invariant of one session is about. */
  datatype View = View(session: Session, owned: set<StateId>, holder: Pc, registered: bool)

  /** What the schedule, the prover and the environment are free to choose at a step. */
  datatype Choice = Go | Fresh(id: StateId, value: int) | Pick(id: StateId) | Finish

  datatype Change = Keep | Put(id: StateId) | Remove(id: StateId)

  /** A step under the lock of a session, as far as this session is concerned. */
  datatype Locked = Locked(session: Session, pc: Pc, change: Change, registered: bool, drawn: set<StateId>)

  /** One step of a request that holds the lock. A step that is not enabled leaves everything as it is. */
  function LockedStep(s: Session, owned: set<StateId>, pc: Pc, registered: bool, issued: set<StateId>,
                      c: Choice): Locked
    requires Holds(pc).Some?
  {
    var stay := Locked(s, pc, Keep, registered, {});
    match pc
    case Entered(sid, task) =>
      if task.Drop? then stay.(pc := Dropping(sid, task.ids))
      else if s.closing then stay.(pc := Releasing(sid))
      else (match task
            case Init => stay.(pc := Working(sid, None, {}))
            case Use(x) => stay.(pc := OwnerCheck(sid, x))
            case Drop(ids) => stay
            case DropAll => stay.(pc := Scanning(sid, owned, {}, false))
            case Destroy => stay.(session := s.(closing := true), pc := Scanning(sid, owned, {}, true)))
    case OwnerCheck(sid, x) => stay.(pc := if x in owned then LocalCheck(sid, x) else Releasing(sid))
    case LocalCheck(sid, x) => stay.(pc := if x in s.local then Working(sid, Some(x), {}) else Releasing(sid))
    case Working(sid, input, mine) =>
      (match c
       case Fresh(id, v) =>
         if id in issued then stay
         else Locked(s.(local := s.local[id := v]), Stored(sid, input, mine, id), Keep, registered, {id})
       case Pick(id) =>
         if id in mine && id in owned then
           stay.(pc := DisownedMine(sid, input, mine, id), change := Remove(id))
         else stay
       case Finish => stay.(pc := Releasing(sid))
       case Go => stay)
    case Stored(sid, input, mine, id) => stay.(pc := Working(sid, input, mine + {id}), change := Put(id))
    case DisownedMine(sid, input, mine, id) =>
      stay.(session := s.(local := s.local - {id}), pc := Working(sid, input, mine))
    case Dropping(sid, ids) =>
      if ids == [] then stay.(pc := Releasing(sid))
      else if ids[0] in owned then stay.(pc := Disowned(sid, ids[1..], ids[0]), change := Remove(ids[0]))
      else stay.(pc := Dropping(sid, ids[1..]))
    case Disowned(sid, ids, id) => stay.(session := s.(local := s.local - {id}), pc := Dropping(sid, ids))
    case Scanning(sid, present, seen, destroy) =>
      // the iterator is weakly consistent: it visits at least what is there from its start to its end
      (match c
       case Pick(id) => if id in owned then stay.(pc := Scanning(sid, present, seen + {id}, destroy)) else stay
       case Finish => if present * owned <= seen then stay.(pc := Forgetting(sid, seen, destroy)) else stay
       case _ => stay)
    case Forgetting(sid, todo, destroy) =>
      if todo == {} then stay.(pc := Clearing(sid, destroy))
      else if c.Pick? && c.id in todo then
        stay.(pc := Forgetting(sid, todo - {c.id}, destroy), change := if c.id in owned then Remove(c.id) else Keep)
      else stay
    case Clearing(sid, destroy) =>
      stay.(session := s.(local := map[]), pc := if destroy then Closing(sid) else Releasing(sid))
    case Closing(sid) => stay.(session := s.(closed := s.closed + 1), pc := Unmapping(sid))
    case Unmapping(sid) => stay.(pc := Releasing(sid), registered := false)
    case Releasing(sid) => stay.(session := s.(lock := None), pc := Done)
  }

  function Apply(owner: map<StateId, SessionId>, sid: SessionId, change: Change): map<StateId, SessionId> {
    match change
    case Keep => owner
    case Put(id) => owner[id := sid]
    case Remove(id) => owner - {id}
  }

  function Acquired(w: World, t: ThreadId, sid: SessionId, task: Task): World
    requires sid in w.sessions
  {
    w.(sessions := w.sessions[sid := w.sessions[sid].(lock := Some(t))], threads := w.threads[t := Entered(sid, task)])
  }

  /** What a step under the lock makes of the world. */
  function Into(w: World, t: ThreadId, sid: SessionId, r: Locked): World
    requires sid in w.sessions
  {
    World(if r.registered then w.registered else w.registered - {sid},
          w.sessions[sid := r.session], Apply(w.owner, sid, r.change), w.threads[t := r.pc], w.issued + r.drawn)
  }

  /** One step of thread `t`. */
  function Step(w: World, t: ThreadId, c: Choice): World
    requires t in w.threads
    requires Holds(w.threads[t]).Some? ==> Holds(w.threads[t]).value in w.sessions
  {
    var pc := w.threads[t];
    match pc
    case OwnerLookup(x) =>
      w.(threads := w.threads[t := if x in w.owner then SessionLookup(w.owner[x], Use(x)) else Done])
    case SessionLookup(sid, task) =>
      w.(threads := w.threads[t := if sid in w.registered then Acquire(sid, task) else Done])
    case Acquire(sid, task) =>
      if sid in w.sessions && w.sessions[sid].lock.None? then
        Acquired(w, t, sid, task)
      else w
    case Done => w
    case _ =>
      Into(w, t, pc.sid, LockedStep(w.sessions[pc.sid], w.OwnedBy(pc.sid), pc, pc.sid in w.registered, w.issued, c))
  }

  /** Requests may arrive at any time, about any session or state, existing or not. */
  datatype Event =
    | Create(sid: SessionId)
    | Begin(thread: ThreadId, source: Option<StateId>, about: SessionId, task: Task)
    | Proceed(thread: ThreadId, choice: Choice)

  function Next(w: World, e: Event): World
    requires Inv(w)
  {
    match e
    case Create(sid) =>
      if sid in w.sessions then w
      else w.(registered := w.registered + {sid}, sessions := w.sessions[sid := Session(None, false, 0, map[])])
    case Begin(t, source, about, task) =>
      if t in w.threads then w
      else w.(threads := w.threads[t := if source.Some? then OwnerLookup(source.value) else SessionLookup(about, task)])
    case Proceed(t, c) => if t in w.threads then Step(w, t, c) else w
  }

  // ---------------------------------------------------------------- the invariant

  /** States that are stored but not owned: one that is being registered or dropped, or those that a drop
      of all states has already disowned. */
  predicate InTransit(pc: Pc, id: StateId) {
    match pc
    case Stored(_, _, _, x) => id == x
    case DisownedMine(_, _, _, x) => id == x
    case Disowned(_, _, x) => id == x
    case Forgetting(_, todo, _) => id !in todo
    case Clearing(_, _) => true
    case _ => false
  }

  /** The request that destroys the session is still at it. */
  predicate Destroying(pc: Pc) {
    pc.Closing? || pc.Unmapping? || ((pc.Scanning? || pc.Forgetting? || pc.Clearing?) && pc.destroy)
  }

  /** The request does something that no request may do to a closing session. */
  predicate NeedsOpen(pc: Pc) {
    || pc.OwnerCheck? || pc.LocalCheck? || pc.Working? || pc.Stored? || pc.DisownedMine?
    || ((pc.Scanning? || pc.Forgetting? || pc.Clearing?) && !pc.destroy)
  }

  /** What holds of a session, given where the holder of its lock stands. */
  predicate Facts(v: View) {
    var s, owned, pc, registered := v.session, v.owned, v.holder, v.registered;
    && owned <= s.local.Keys
    && (forall id :: id in s.local ==> id in owned || InTransit(pc, id))
    && (NeedsOpen(pc) ==> !s.closing)
    && (Destroying(pc) ==> s.closing && registered && s.closed == (if pc.Unmapping? then 1 else 0))
    && (pc.Closing? || pc.Unmapping? ==> s.local == map[])
    && (s.closing && !Destroying(pc) ==> s.closed == 1 && s.local == map[] && !registered)
    && (!s.closing ==> s.closed == 0 && registered)
    && PlaceOk(s, owned, pc)
  }

  predicate PlaceOk(s: Session, owned: set<StateId>, pc: Pc) {
    match pc
    case LocalCheck(_, x) => x in owned
    case Working(_, input, mine) => input.Some? ==> input.value in owned && input.value !in mine
    case Stored(_, input, mine, id) =>
      && id in s.local && id !in owned
      && (input.Some? ==> input.value in owned && input.value !in mine)
    case DisownedMine(_, input, mine, id) =>
      id in s.local && id !in owned && (input.Some? ==> input.value in owned && input.value !in mine)
    case Disowned(_, _, id) => id in s.local && id !in owned
    case Scanning(_, present, _, _) => owned <= present
    case Forgetting(_, todo, _) => owned <= todo
    case Clearing(_, _) => owned == {}
    case _ => true
  }

  /** The same; the trigger keeps the verifier from unfolding it for sessions that a step does not touch. */
  ghost predicate SessionOk(v: View) {
    forall u: View {:trigger Facts(u)} :: u == v ==> Facts(u)
  }

  ghost predicate LocksOk(w: World) {
    && (forall t :: t in w.threads && Holds(w.threads[t]).Some? ==>
          && Holds(w.threads[t]).value in w.sessions
          && w.sessions[Holds(w.threads[t]).value].lock == Some(t))
    && (forall sid :: sid in w.sessions && w.sessions[sid].lock.Some? ==>
          && w.sessions[sid].lock.value in w.threads
          && Holds(w.threads[w.sessions[sid].lock.value]) == Some(sid))
  }

  /** A state is stored in one session only, and ids are never drawn twice. */
  ghost predicate IdsOk(w: World) {
    && (forall sid, id :: sid in w.sessions && id in w.sessions[sid].local ==> id in w.issued)
    && (forall a, b, id ::
          a in w.sessions && b in w.sessions && id in w.sessions[a].local && id in w.sessions[b].local ==> a == b)
    && (forall id :: id in w.owner ==> w.owner[id] in w.sessions)
  }

  ghost predicate Inv(w: World) {
    && LocksOk(w) && IdsOk(w) && w.registered <= w.sessions.Keys
    && (forall sid :: sid in w.sessions ==> SessionOk(w.ViewOf(sid)))
  }

  // ---------------------------------------------------------------- every step keeps it

  function OwnedAfter(owned: set<StateId>, change: Change): set<StateId> {
    match change
    case Keep => owned
    case Put(id) => owned + {id}
    case Remove(id) => owned - {id}
  }

  /** What a step under the lock may do: it stores before it owns, disowns before it removes, and draws ids
      that nobody drew before. */
  ghost predicate StepOk(v: View, issued: set<StateId>, r: Locked) {
    && (r.change.Put? ==> r.change.id in v.session.local && r.change.id !in v.owned)
    && (r.change.Remove? ==> r.change.id in v.owned)
    && (forall id :: id in r.session.local ==> id in v.session.local || (id in r.drawn && id !in issued))
    && SessionOk(View(r.session, OwnedAfter(v.owned, r.change), r.pc, r.registered))
    && (if r.pc.Done? then r.session.lock == None
        else Holds(r.pc) == Holds(v.holder) && r.session.lock == v.session.lock)
    && (r.registered ==> v.registered)
  }

  function LockedStepOf(v: View, issued: set<StateId>, c: Choice): Locked
    requires Holds(v.holder).Some?
  {
    LockedStep(v.session, v.owned, v.holder, v.registered, issued, c)
  }

  lemma {:induction false} EntryKeeps(v: View, issued: set<StateId>, c: Choice)
    requires v.holder.Entered? || v.holder.OwnerCheck? || v.holder.LocalCheck? || v.holder.Releasing?
    requires SessionOk(v) && v.session.local.Keys <= issued
    ensures StepOk(v, issued, LockedStepOf(v, issued, c))
  {
    assert Facts(v);
  }

  lemma {:induction false} WorkKeeps(v: View, issued: set<StateId>, c: Choice)
    requires v.holder.Working? || v.holder.Stored? || v.holder.DisownedMine?
    requires SessionOk(v) && v.session.local.Keys <= issued
    ensures StepOk(v, issued, LockedStepOf(v, issued, c))
  {
    assert Facts(v);
  }

  lemma {:induction false} DropKeeps(v: View, issued: set<StateId>, c: Choice)
    requires v.holder.Dropping? || v.holder.Disowned?
    requires SessionOk(v) && v.session.local.Keys <= issued
    ensures StepOk(v, issued, LockedStepOf(v, issued, c))
  {
    assert Facts(v);
  }

  lemma {:induction false} DropAllKeeps(v: View, issued: set<StateId>, c: Choice)
    requires v.holder.Scanning? || v.holder.Forgetting? || v.holder.Clearing?
    requires SessionOk(v) && v.session.local.Keys <= issued
    ensures StepOk(v, issued, LockedStepOf(v, issued, c))
  {
    assert Facts(v);
  }

  lemma {:induction false} CloseKeeps(v: View, issued: set<StateId>, c: Choice)
    requires v.holder.Closing? || v.holder.Unmapping?
    requires SessionOk(v) && v.session.local.Keys <= issued
    ensures StepOk(v, issued, LockedStepOf(v, issued, c))
  {
    assert Facts(v);
  }

  lemma LockedStepKeeps(v: View, issued: set<StateId>, c: Choice)
    requires Holds(v.holder).Some? && SessionOk(v) && v.session.local.Keys <= issued
    ensures StepOk(v, issued, LockedStepOf(v, issued, c))
  {
    if v.holder.Entered? || v.holder.OwnerCheck? || v.holder.LocalCheck? || v.holder.Releasing? {
      EntryKeeps(v, issued, c);
    } else if v.holder.Working? || v.holder.Stored? || v.holder.DisownedMine? {
      WorkKeeps(v, issued, c);
    } else if v.holder.Dropping? || v.holder.Disowned? {
      DropKeeps(v, issued, c);
    } else if v.holder.Closing? || v.holder.Unmapping? {
      CloseKeeps(v, issued, c);
    } else {
      DropAllKeeps(v, issued, c);
    }
  }

  /** A step in one session leaves what the others own alone. */
  lemma OwnershipAfter(w: World, sid: SessionId, change: Change, b: SessionId)
    requires IdsOk(w) && sid in w.sessions && b in w.sessions
    requires w.OwnedBy(b) <= w.sessions[b].local.Keys
    requires change.Put? ==> change.id in w.sessions[sid].local && change.id !in w.OwnedBy(sid)
    requires change.Remove? ==> change.id in w.OwnedBy(sid)
    ensures w.(owner := Apply(w.owner, sid, change)).OwnedBy(b) ==
            if b == sid then OwnedAfter(w.OwnedBy(sid), change) else w.OwnedBy(b)
  {
  }

  lemma {:induction false} StepKeepsLocks(w: World, t: ThreadId, sid: SessionId, r: Locked)
    requires LocksOk(w) && t in w.threads && Holds(w.threads[t]) == Some(sid)
    requires if r.pc.Done? then r.session.lock == None
             else Holds(r.pc) == Some(sid) && r.session.lock == w.sessions[sid].lock
    ensures LocksOk(Into(w, t, sid, r))
    ensures forall b :: b in w.sessions && b != sid ==> Into(w, t, sid, r).Holder(b) == w.Holder(b)
    ensures Into(w, t, sid, r).Holder(sid) == r.pc
  {
  }

  lemma {:induction false} StepKeepsIds(w: World, t: ThreadId, sid: SessionId, r: Locked)
    requires IdsOk(w) && sid in w.sessions
    requires forall id :: id in r.session.local ==> id in w.sessions[sid].local || (id in r.drawn && id !in w.issued)
    ensures IdsOk(Into(w, t, sid, r))
  {
  }

  /** A step of a thread that holds a lock. */
  lemma {:induction false} HolderKeeps(w: World, t: ThreadId, c: Choice)
    requires Inv(w) && t in w.threads && Holds(w.threads[t]).Some?
    ensures Inv(Step(w, t, c))
  {
    var sid := w.threads[t].sid;
    var v := w.ViewOf(sid);
    assert v.holder == w.threads[t];
    var r := LockedStepOf(v, w.issued, c);
    var w' := Into(w, t, sid, r);
    assert Step(w, t, c) == w';
    LockedStepKeeps(v, w.issued, c);
    StepKeepsLocks(w, t, sid, r);
    StepKeepsIds(w, t, sid, r);
    forall b | b in w'.sessions
      ensures SessionOk(w'.ViewOf(b))
    {
      OwnedIsStored(w, b);
      OwnershipAfter(w, sid, r.change, b);
      assert w'.OwnedBy(b) == w.(owner := w'.owner).OwnedBy(b);
      var mine := View(r.session, OwnedAfter(v.owned, r.change), r.pc, r.registered);
      assert w'.ViewOf(b) == if b == sid then mine else w.ViewOf(b);
    }
  }

  lemma OwnedIsStored(w: World, sid: SessionId)
    requires sid in w.sessions && SessionOk(w.ViewOf(sid))
    ensures w.OwnedBy(sid) <= w.sessions[sid].local.Keys
  {
    assert Facts(w.ViewOf(sid));
  }

  lemma EnteredOk(v: View, t: ThreadId, task: Task)
    requires SessionOk(v) && v.holder.Done?
    ensures forall sid :: SessionOk(View(v.session.(lock := Some(t)), v.owned, Entered(sid, task), v.registered))
  {
    assert Facts(v);
  }

  lemma {:induction false} AcquireKeepsLocks(w: World, t: ThreadId, sid: SessionId, task: Task)
    requires LocksOk(w) && t in w.threads && Holds(w.threads[t]).None? && sid in w.sessions
        && w.sessions[sid].lock.None?
    ensures LocksOk(Acquired(w, t, sid, task))
    ensures forall b :: b in w.sessions && b != sid ==> Acquired(w, t, sid, task).Holder(b) == w.Holder(b)
    ensures Acquired(w, t, sid, task).Holder(sid) == Entered(sid, task)
  {
  }

  /** A thread that gets a lock. */
  lemma {:induction false} AcquireKeeps(w: World, t: ThreadId, sid: SessionId, task: Task)
    requires Inv(w) && t in w.threads && Holds(w.threads[t]).None? && sid in w.sessions && w.sessions[sid].lock.None?
    ensures Inv(Acquired(w, t, sid, task))
  {
    var w' := Acquired(w, t, sid, task);
    AcquireKeepsLocks(w, t, sid, task);
    forall b | b in w'.sessions
      ensures SessionOk(w'.ViewOf(b))
    {
      assert w'.OwnedBy(b) == w.OwnedBy(b);
      if b == sid {
        EnteredOk(w.ViewOf(sid), t, task);
        assert w'.ViewOf(sid) == View(w'.sessions[sid], w.OwnedBy(sid), Entered(sid, task), sid in w.registered);
      } else {
        assert w'.ViewOf(b) == w.ViewOf(b);
      }
    }
  }

  /** A thread that holds no lock, before and after. */
  lemma {:induction false} OutsiderKeeps(w: World, t: ThreadId, pc: Pc)
    requires Inv(w) && (t in w.threads ==> Holds(w.threads[t]).None?) && Holds(pc).None?
    ensures Inv(w.(threads := w.threads[t := pc]))
  {
    var w' := w.(threads := w.threads[t := pc]);
    forall b | b in w'.sessions
      ensures SessionOk(w'.ViewOf(b))
    {
      assert w'.OwnedBy(b) == w.OwnedBy(b);
      assert w'.ViewOf(b) == w.ViewOf(b);
    }
  }

  lemma {:induction false} CreateKeeps(w: World, sid: SessionId)
    requires Inv(w) && sid !in w.sessions
    ensures Inv(Next(w, Create(sid)))
  {
    var w' := Next(w, Create(sid));
    forall b | b in w'.sessions
      ensures SessionOk(w'.ViewOf(b))
    {
      assert w'.OwnedBy(b) == w.OwnedBy(b);
      if b != sid {
        assert w'.ViewOf(b) == w.ViewOf(b);
      } else {
        assert forall id :: id in w.owner ==> w.owner[id] != sid;
        assert w'.ViewOf(b) == View(Session(None, false, 0, map[]), {}, Done, true);
      }
    }
  }

  /** Whatever happens next, the invariant is kept. */
  lemma {:induction false} NextKeeps(w: World, e: Event)
    requires Inv(w)
    ensures Inv(Next(w, e))
  {
    match e
    case Create(sid) =>
      if sid !in w.sessions { CreateKeeps(w, sid); }
    case Begin(t, source, about, task) =>
      if t !in w.threads {
        OutsiderKeeps(w, t, if source.Some? then OwnerLookup(source.value) else SessionLookup(about, task));
      }
    case Proceed(t, c) =>
      if t in w.threads {
        match w.threads[t]
        case OwnerLookup(x) =>
          OutsiderKeeps(w, t, if x in w.owner then SessionLookup(w.owner[x], Use(x)) else Done);
        case SessionLookup(sid, task) =>
          OutsiderKeeps(w, t, if sid in w.registered then Acquire(sid, task) else Done);
        case Acquire(sid, task) =>
          if sid in w.sessions && w.sessions[sid].lock.None? { AcquireKeeps(w, t, sid, task); }
        case Done =>
        case _ =>
          HolderKeeps(w, t, c);
      }
  }

  // ---------------------------------------------------------------- every run of the server

  const START := World({}, map[], map[], map[], {})

  /** The world after a sequence of events: any requests, interleaved in any way. */
  ghost function RunFrom(w: World, events: seq<Event>): (w': World)
    requires Inv(w)
    ensures Inv(w')
    decreases |events|
  {
    if events == [] then w
    else
      NextKeeps(w, events[0]);
      RunFrom(Next(w, events[0]), events[1..])
  }

  ghost function Run(events: seq<Event>): (w: World)
    ensures Inv(w)
  {
    RunFrom(START, events)
  }

  /** At every point of every run a state is stored where the registry says it is; and while a lock is free,
      the registry and the session agree exactly. */
  lemma OwnedStatesAreStored(events: seq<Event>)
    ensures var w := Run(events);
            && (forall id :: id in w.owner ==> w.owner[id] in w.sessions && id in w.sessions[w.owner[id]].local)
            && (forall sid, id :: sid in w.sessions && w.sessions[sid].lock == None ==>
                  (id in w.sessions[sid].local <==> id in w.owner && w.owner[id] == sid))
  {
    var w := Run(events);
    forall sid | sid in w.sessions
      ensures w.OwnedBy(sid) <= w.sessions[sid].local.Keys
      ensures w.sessions[sid].lock == None ==> w.sessions[sid].local.Keys <= w.OwnedBy(sid)
    {
      assert Facts(w.ViewOf(sid));
    }
    assert forall id :: id in w.owner ==> id in w.OwnedBy(w.owner[id]);
    assert forall sid, id :: sid in w.sessions && id in w.OwnedBy(sid) ==> id in w.owner && w.owner[id] == sid;
  }

  /** A session is closed at most once, and a closed session owns and stores nothing, now and whatever
      happens later; this also covers requests that found the session before it was closed. */
  lemma {:induction false} ClosedSessionsStayEmpty(w: World, events: seq<Event>, sid: SessionId)
    requires Inv(w) && sid in w.sessions
    ensures var after := RunFrom(w, events);
            && sid in after.sessions && w.sessions[sid].closed <= after.sessions[sid].closed <= 1
            && (after.sessions[sid].closed == 1 ==>
                  after.sessions[sid].local == map[] && forall id :: id in after.owner ==> after.owner[id] != sid)
            && (after.sessions[sid].closed == 1 && after.sessions[sid].lock == None ==> sid !in after.registered)
    decreases |events|
  {
    if events == [] {
      assert Facts(w.ViewOf(sid));
      assert forall id :: id in w.owner ==> id in w.OwnedBy(w.owner[id]);
    } else {
      NextKeeps(w, events[0]);
      ClosedNeverReopens(w, events[0], sid);
      ClosedSessionsStayEmpty(Next(w, events[0]), events[1..], sid);
    }
  }

  /** The holder of its lock makes a step. */
  lemma SessionAfterItsHolder(w: World, t: ThreadId, c: Choice, sid: SessionId)
    requires Inv(w) && sid in w.sessions && w.sessions[sid].lock == Some(t)
    ensures t in w.threads && Holds(w.threads[t]) == Some(sid) && w.Holder(sid) == w.threads[t]
    ensures Step(w, t, c) == Into(w, t, sid, LockedStepOf(w.ViewOf(sid), w.issued, c))
  {
  }

  /** Any other step leaves a session as it is, but for its lock. */
  lemma SessionAfterOthers(w: World, e: Event, sid: SessionId)
    requires Inv(w) && sid in w.sessions && (e.Proceed? ==> w.sessions[sid].lock != Some(e.thread))
    ensures sid in Next(w, e).sessions && Next(w, e).sessions[sid].(lock := None) == w.sessions[sid].(lock := None)
  {
    if e.Proceed? && e.thread in w.threads && Holds(w.threads[e.thread]).Some? {
      var other := w.threads[e.thread].sid;
      assert Next(w, e) == Into(w, e.thread, other, LockedStepOf(w.ViewOf(other), w.issued, e.choice));
    }
  }

  /** What a step under the lock does to a session over time. */
  lemma LockedStepSpares(v: View, issued: set<StateId>, c: Choice)
    requires Holds(v.holder).Some?
    ensures var r := LockedStepOf(v, issued, c);
            && v.session.closed <= r.session.closed && (v.session.closing ==> r.session.closing)
            && (v.session.local.Keys <= issued ==>
                  forall id :: id in v.session.local && !RemovesAt(v.holder, id) ==>
                    id in r.session.local && r.session.local[id] == v.session.local[id])
  {
  }

  /** At this point a request takes the state away: its own drop, or a drop of all states of its session. */
  predicate RemovesAt(pc: Pc, id: StateId) {
    match pc
    case DisownedMine(_, _, _, x) => x == id
    case Disowned(_, _, x) => x == id
    case Clearing(_, _) => true
    case _ => false
  }

  lemma ClosedNeverReopens(w: World, e: Event, sid: SessionId)
    requires Inv(w) && sid in w.sessions
    ensures sid in Next(w, e).sessions && w.sessions[sid].closed <= Next(w, e).sessions[sid].closed
    ensures w.sessions[sid].closing ==> Next(w, e).sessions[sid].closing
  {
    if e.Proceed? && w.sessions[sid].lock == Some(e.thread) {
      SessionAfterItsHolder(w, e.thread, e.choice, sid);
      LockedStepSpares(w.ViewOf(sid), w.issued, e.choice);
    } else {
      SessionAfterOthers(w, e, sid);
      assert Next(w, e).sessions[sid].(lock := None).closing == Next(w, e).sessions[sid].closing;
    }
  }

  /** Once closing has started, the only request that does anything to the session is the one that destroys
      it: every other holder of the lock leaves states, ownership and flags as they are. */
  lemma ClosingSessionsAreLeftAlone(events: seq<Event>, sid: SessionId, c: Choice)
    requires var w := Run(events);
             sid in w.sessions && w.sessions[sid].closing && w.sessions[sid].lock.Some? && !Destroying(w.Holder(sid))
    ensures var w := Run(events);
            var r := LockedStepOf(w.ViewOf(sid), w.issued, c);
            r.change == Keep && r.drawn == {} && r.session.(lock := None) == w.sessions[sid].(lock := None)
  {
    var w := Run(events);
    assert Facts(w.ViewOf(sid));
  }

  /** Only the holder of its lock changes a session or what it owns. */
  lemma OnlyTheHolderTouches(w: World, e: Event, sid: SessionId)
    requires Inv(w) && sid in w.sessions
    requires e.Proceed? ==> w.sessions[sid].lock != Some(e.thread)
    ensures Next(w, e).sessions[sid].(lock := None) == w.sessions[sid].(lock := None)
    ensures Next(w, e).OwnedBy(sid) == w.OwnedBy(sid)
  {
    SessionAfterOthers(w, e, sid);
    if e.Proceed? && e.thread in w.threads && Holds(w.threads[e.thread]).Some? {
      var other := w.threads[e.thread].sid;
      var v := w.ViewOf(other);
      var r := LockedStepOf(v, w.issued, e.choice);
      LockedStepKeeps(v, w.issued, e.choice);
      OwnedIsStored(w, sid);
      OwnershipAfter(w, other, r.change, sid);
      assert w.(owner := Apply(w.owner, other, r.change)).OwnedBy(sid) == Next(w, e).OwnedBy(sid);
    }
  }

  /** A request that executes in a state has a live source state for as long as it works. */
  lemma SourcesStayLive(events: seq<Event>, t: ThreadId)
    requires t in Run(events).threads && Run(events).threads[t].Working? && Run(events).threads[t].input.Some?
    ensures var w := Run(events);
            var pc := w.threads[t];
            && pc.sid in w.sessions && pc.input.value in w.sessions[pc.sid].local
            && pc.input.value in w.owner && w.owner[pc.input.value] == pc.sid
            && !w.sessions[pc.sid].closing
  {
    var w := Run(events);
    assert Facts(w.ViewOf(w.threads[t].sid));
  }

  predicate Removes(w: World, e: Event, sid: SessionId, id: StateId)
    requires sid in w.sessions
  {
    e.Proceed? && w.sessions[sid].lock == Some(e.thread) && RemovesAt(w.Holder(sid), id)
  }

  ghost predicate NeverRemoved(w: World, events: seq<Event>, sid: SessionId, id: StateId)
    requires Inv(w) && sid in w.sessions
    decreases |events|
  {
    events == [] ||
      (NextKeeps(w, events[0]); ClosedNeverReopens(w, events[0], sid);
       !Removes(w, events[0], sid, id) && NeverRemoved(Next(w, events[0]), events[1..], sid, id))
  }

  /** A live state stays live, with its value, until it is dropped. */
  lemma {:induction false} LiveUntilDropped(w: World, events: seq<Event>, sid: SessionId, id: StateId)
    requires Inv(w) && sid in w.sessions && id in w.sessions[sid].local && NeverRemoved(w, events, sid, id)
    ensures var after := RunFrom(w, events);
            sid in after.sessions && id in after.sessions[sid].local
            && after.sessions[sid].local[id] == w.sessions[sid].local[id]
    decreases |events|
  {
    if events != [] {
      NextKeeps(w, events[0]);
      LivePersists(w, events[0], sid, id);
      LiveUntilDropped(Next(w, events[0]), events[1..], sid, id);
    }
  }

  lemma LivePersists(w: World, e: Event, sid: SessionId, id: StateId)
    requires Inv(w) && sid in w.sessions && id in w.sessions[sid].local && !Removes(w, e, sid, id)
    ensures sid in Next(w, e).sessions && id in Next(w, e).sessions[sid].local
    ensures Next(w, e).sessions[sid].local[id] == w.sessions[sid].local[id]
  {
    if e.Proceed? && w.sessions[sid].lock == Some(e.thread) {
      SessionAfterItsHolder(w, e.thread, e.choice, sid);
      LockedStepSpares(w.ViewOf(sid), w.issued, e.choice);
    } else {
      SessionAfterOthers(w, e, sid);
      assert Next(w, e).sessions[sid].(lock := None).local == Next(w, e).sessions[sid].local;
    }
  }

  /** A drop takes its ids one by one: after its step on an id this session does not own it, and after one
      more step at most it is not stored either, nor owned by anyone if it ever was in this session. */
  lemma DropsTakeEffect(w: World, t: ThreadId, c: Choice)
    requires Inv(w) && t in w.threads
    ensures w.threads[t].Dropping? && w.threads[t].ids != [] ==>
      var pc, next := w.threads[t], Step(w, t, c);
      && pc.ids[0] !in next.OwnedBy(pc.sid)
      && (pc.ids[0] in next.sessions[pc.sid].local ==> next.threads[t] == Disowned(pc.sid, pc.ids[1..], pc.ids[0]))
    ensures w.threads[t].Disowned? ==>
      var pc, next := w.threads[t], Step(w, t, c);
      && pc.id !in next.sessions[pc.sid].local && pc.id !in next.owner
      && next.threads[t] == Dropping(pc.sid, pc.ids)
  {
    if Holds(w.threads[t]).Some? {
      var sid := w.threads[t].sid;
      SessionAfterItsHolder(w, t, c, sid);
      assert Facts(w.ViewOf(sid));
      if w.threads[t].Disowned? {
        OwnersAreUnique(w, sid, w.threads[t].id);
      }
    }
  }

  lemma OwnersAreUnique(w: World, sid: SessionId, id: StateId)
    requires Inv(w) && sid in w.sessions && id in w.sessions[sid].local
    ensures id in w.owner ==> w.owner[id] == sid && id in w.OwnedBy(sid)
  {
    if id in w.owner {
      OwnedIsStored(w, w.owner[id]);
      assert id in w.OwnedBy(w.owner[id]);
    }
  }

  // ---------------------------------------------------------------- what requests come to

  /** What a request is there for: that some states are gone, or all of them, or the whole session. */
  datatype Aim = DropThem(ids: seq<StateId>) | EmptyIt | DestroyIt

  predicate IsGone(v: View, id: StateId) {
    id !in v.session.local && id !in v.owned
  }

  predicate IsMet(v: View, aim: Aim) {
    match aim
    case DropThem(ids) => forall id :: id in ids ==> IsGone(v, id)
    case EmptyIt => v.session.local == map[] && v.owned == {}
    case DestroyIt => v.session.local == map[] && v.owned == {} && v.session.closed == 1 && !v.registered
  }

  /** The request that holds the lock has got so far with what it is there for. One that wants all states, or
      the session, has found it open. */
  predicate IsOnItsWay(v: View, aim: Aim) {
    match v.holder
    case Entered(_, task) =>
      match aim {
        case DropThem(ids) => task == Drop(ids)
        case EmptyIt => task.DropAll? && !v.session.closing
        case DestroyIt => task.Destroy? && !v.session.closing
      }
    case Dropping(_, rest) => aim.DropThem? && forall id :: id in aim.ids ==> id in rest || IsGone(v, id)
    case Disowned(_, rest, x) =>
      aim.DropThem? && forall id :: id in aim.ids ==> id in rest || id == x || IsGone(v, id)
    case Scanning(_, _, _, destroy) => !aim.DropThem? && destroy == aim.DestroyIt?
    case Forgetting(_, _, destroy) => !aim.DropThem? && destroy == aim.DestroyIt?
    case Clearing(_, destroy) => !aim.DropThem? && destroy == aim.DestroyIt?
    case Closing(_) => aim.DestroyIt?
    case Unmapping(_) => aim.DestroyIt?
    case Releasing(_) => IsMet(v, aim)
    case _ => false
  }

  /** Whatever it is free to choose, it stays on its way, and when it is done its aim is met. */
  lemma StaysOnItsWay(v: View, issued: set<StateId>, c: Choice, aim: Aim)
    requires Holds(v.holder).Some? && SessionOk(v) && IsOnItsWay(v, aim)
    ensures var next := ViewAfter(v, issued, c);
            if next.holder.Done? then IsMet(next, aim) else IsOnItsWay(next, aim)
  {
    assert Facts(v);
  }

  /** How many steps it still has to take at most. */
  function StepsLeft(v: View): nat {
    match v.holder
    case Entered(_, task) => if task.Drop? then 2 * |task.ids| + 3 else 2 * |v.owned| + 7
    case Dropping(_, rest) => 2 * |rest| + 2
    case Disowned(_, rest, _) => 2 * |rest| + 3
    case Scanning(_, _, seen, _) => |v.owned - seen| + |v.owned + seen| + 6
    case Forgetting(_, todo, _) => |todo| + 5
    case Clearing(_, _) => 4
    case Closing(_) => 3
    case Unmapping(_) => 2
    case Releasing(_) => 1
    case _ => 0
  }

  /** And nothing keeps it from taking them. */
  lemma LeadsOn(v: View, issued: set<StateId>, aim: Aim) returns (c: Choice)
    requires Holds(v.holder).Some? && SessionOk(v) && IsOnItsWay(v, aim)
    ensures StepsLeft(ViewAfter(v, issued, c)) < StepsLeft(v)
  {
    if v.holder.Scanning? {
      c := ScanLeadsOn(v, issued);
    } else if v.holder.Forgetting? {
      c := ForgettingLeadsOn(v, issued);
    } else {
      c := Go;
      if v.holder.Entered? {
        EntryLeadsOn(v, issued, aim);
      } else {
        GoLeadsOn(v, issued, aim);
      }
    }
  }

  lemma EntryLeadsOn(v: View, issued: set<StateId>, aim: Aim)
    requires v.holder.Entered? && IsOnItsWay(v, aim)
    ensures StepsLeft(ViewAfter(v, issued, Go)) < StepsLeft(v)
  {
    assert v.owned - {} == v.owned && v.owned + {} == v.owned;
  }

  lemma GoLeadsOn(v: View, issued: set<StateId>, aim: Aim)
    requires Holds(v.holder).Some? && IsOnItsWay(v, aim)
    requires !v.holder.Entered? && !v.holder.Scanning? && !v.holder.Forgetting?
    ensures StepsLeft(ViewAfter(v, issued, Go)) < StepsLeft(v)
  {
  }

  function ViewAfter(v: View, issued: set<StateId>, c: Choice): View
    requires Holds(v.holder).Some?
  {
    var r := LockedStepOf(v, issued, c);
    View(r.session, OwnedAfter(v.owned, r.change), r.pc, r.registered)
  }

  lemma ScanLeadsOn(v: View, issued: set<StateId>) returns (c: Choice)
    requires v.holder.Scanning? && SessionOk(v)
    ensures StepsLeft(ViewAfter(v, issued, c)) < StepsLeft(v)
  {
    assert Facts(v);
    var seen := v.holder.seen;
    if v.owned <= seen {
      c := Finish;
      assert v.owned - seen == {} && v.owned + seen == seen;
    } else {
      var id :| id in v.owned && id !in seen;
      c := Pick(id);
      assert v.owned - (seen + {id}) == (v.owned - seen) - {id};
      assert v.owned + (seen + {id}) == v.owned + seen;
    }
  }

  lemma ForgettingLeadsOn(v: View, issued: set<StateId>) returns (c: Choice)
    requires v.holder.Forgetting?
    ensures StepsLeft(ViewAfter(v, issued, c)) < StepsLeft(v)
  {
    c := Go;
    if v.holder.todo != {} {
      var id :| id in v.holder.todo;
      c := Pick(id);
    }
  }

  /** What the holder of a lock makes of its session. */
  lemma ViewAfterStep(w: World, t: ThreadId, c: Choice, sid: SessionId)
    requires Inv(w) && sid in w.sessions && w.sessions[sid].lock == Some(t)
    ensures t in w.threads && w.Holder(sid) == w.threads[t] && Holds(w.threads[t]) == Some(sid)
    ensures Step(w, t, c).ViewOf(sid) == ViewAfter(w.ViewOf(sid), w.issued, c)
    ensures Step(w, t, c).threads[t] == ViewAfter(w.ViewOf(sid), w.issued, c).holder
  {
    SessionAfterItsHolder(w, t, c, sid);
    var v := w.ViewOf(sid);
    LockedStepKeeps(v, w.issued, c);
    OwnedIsStored(w, sid);
    IntoView(w, t, sid, LockedStepOf(v, w.issued, c));
  }

  lemma IntoView(w: World, t: ThreadId, sid: SessionId, r: Locked)
    requires LocksOk(w) && IdsOk(w) && t in w.threads && Holds(w.threads[t]) == Some(sid) && sid in w.sessions
    requires w.OwnedBy(sid) <= w.sessions[sid].local.Keys
    requires r.change.Put? ==> r.change.id in w.sessions[sid].local && r.change.id !in w.OwnedBy(sid)
    requires r.change.Remove? ==> r.change.id in w.OwnedBy(sid)
    requires if r.pc.Done? then r.session.lock == None
             else Holds(r.pc) == Some(sid) && r.session.lock == w.sessions[sid].lock
    requires r.registered ==> sid in w.registered
    ensures Into(w, t, sid, r).ViewOf(sid) ==
            View(r.session, OwnedAfter(w.OwnedBy(sid), r.change), r.pc, r.registered)
  {
    var w' := Into(w, t, sid, r);
    StepKeepsLocks(w, t, sid, r);
    OwnershipAfter(w, sid, r.change, sid);
    assert w'.OwnedBy(sid) == w.(owner := w'.owner).OwnedBy(sid);
  }

  /** Nobody else makes anything of it while the lock is held. */
  lemma ViewKept(w: World, e: Event, t: ThreadId, sid: SessionId)
    requires Inv(w) && sid in w.sessions && w.sessions[sid].lock == Some(t)
    requires !(e.Proceed? && e.thread == t)
    ensures sid in Next(w, e).sessions && Next(w, e).ViewOf(sid) == w.ViewOf(sid)
    ensures t in w.threads && t in Next(w, e).threads && Next(w, e).threads[t] == w.threads[t]
  {
    OnlyTheHolderTouches(w, e, sid);
    if e.Proceed? && e.thread in w.threads && Holds(w.threads[e.thread]).Some? {
      var other := w.threads[e.thread].sid;
      assert Next(w, e) == Into(w, e.thread, other, LockedStepOf(w.ViewOf(other), w.issued, e.choice));
    }
  }

  ghost predicate HasMet(w: World, sid: SessionId, aim: Aim) {
    sid in w.sessions && IsMet(w.ViewOf(sid), aim)
  }

  ghost predicate MetBy(w: World, events: seq<Event>, n: nat, sid: SessionId, aim: Aim)
    requires Inv(w) && n <= |events|
  {
    HasMet(RunFrom(w, events[..n]), sid, aim)
  }

  /** A request that has got the lock of its session is on its way to its aim at every point of every run, until
      it is done; and at the point where it was done its aim was met. */
  lemma {:induction false} RunsToItsAim(w: World, events: seq<Event>, t: ThreadId, sid: SessionId, aim: Aim)
    requires Inv(w) && sid in w.sessions && w.sessions[sid].lock == Some(t) && IsOnItsWay(w.ViewOf(sid), aim)
    ensures var after := RunFrom(w, events);
            && t in after.threads
            && if after.threads[t].Done? then exists n: nat :: n <= |events| && MetBy(w, events, n, sid, aim)
               else && sid in after.sessions && after.sessions[sid].lock == Some(t)
                    && IsOnItsWay(after.ViewOf(sid), aim)
    decreases |events|
  {
    SessionAfterItsHolder(w, t, Go, sid);
    if events != [] {
      var next := Next(w, events[0]);
      StepOnItsWay(w, events[0], t, sid, aim);
      if next.threads[t].Done? {
        DoneStaysDone(next, events[1..], t);
        MetOneLater(w, events, 0, sid, aim);
        assert MetBy(w, events, 1, sid, aim);
      } else {
        RunsToItsAim(next, events[1..], t, sid, aim);
        if RunFrom(w, events).threads[t].Done? {
          var n: nat :| n <= |events| - 1 && MetBy(next, events[1..], n, sid, aim);
          MetOneLater(w, events, n, sid, aim);
          assert MetBy(w, events, n + 1, sid, aim);
        }
      }
    }
  }

  lemma MetOneLater(w: World, events: seq<Event>, n: nat, sid: SessionId, aim: Aim)
    requires Inv(w) && n < |events| && Inv(Next(w, events[0]))
    ensures MetBy(w, events, n + 1, sid, aim) == MetBy(Next(w, events[0]), events[1..], n, sid, aim)
  {
    assert events[..n + 1][0] == events[0] && events[..n + 1][1..] == events[1..][..n];
  }

  /** One event of such a run. */
  lemma StepOnItsWay(w: World, e: Event, t: ThreadId, sid: SessionId, aim: Aim)
    requires Inv(w) && sid in w.sessions && w.sessions[sid].lock == Some(t) && IsOnItsWay(w.ViewOf(sid), aim)
    ensures t in w.threads && !w.threads[t].Done?
    ensures var next := Next(w, e);
            && Inv(next) && t in next.threads && sid in next.sessions
            && if next.threads[t].Done? then HasMet(next, sid, aim)
               else next.sessions[sid].lock == Some(t) && IsOnItsWay(next.ViewOf(sid), aim)
  {
    NextKeeps(w, e);
    ViewAfterStep(w, t, Go, sid);
    if e.Proceed? && e.thread == t {
      ViewAfterStep(w, t, e.choice, sid);
      StaysOnItsWay(w.ViewOf(sid), w.issued, e.choice, aim);
      LockedStepKeeps(w.ViewOf(sid), w.issued, e.choice);
      assert Next(w, e).ViewOf(sid).session == Next(w, e).sessions[sid];
    } else {
      ViewKept(w, e, t, sid);
      assert Next(w, e).ViewOf(sid).session == Next(w, e).sessions[sid] && w.ViewOf(sid).session == w.sessions[sid];
    }
  }

  lemma {:induction false} DoneStaysDone(w: World, events: seq<Event>, t: ThreadId)
    requires Inv(w) && t in w.threads && w.threads[t].Done?
    ensures t in RunFrom(w, events).threads && RunFrom(w, events).threads[t].Done?
    decreases |events|
  {
    if events != [] {
      NextKeeps(w, events[0]);
      DoneStays(w, events[0], t);
      DoneStaysDone(Next(w, events[0]), events[1..], t);
    }
  }

  lemma DoneStays(w: World, e: Event, t: ThreadId)
    requires Inv(w) && t in w.threads && w.threads[t].Done?
    ensures t in Next(w, e).threads && Next(w, e).threads[t].Done?
  {
  }

  /** It can always be done by its own steps alone. */
  lemma {:induction false} CanBeDone(w: World, t: ThreadId, sid: SessionId, aim: Aim) returns (events: seq<Event>)
    requires Inv(w) && sid in w.sessions && w.sessions[sid].lock == Some(t) && IsOnItsWay(w.ViewOf(sid), aim)
    ensures |events| <= StepsLeft(w.ViewOf(sid)) && forall e :: e in events ==> e.Proceed? && e.thread == t
    ensures t in RunFrom(w, events).threads && RunFrom(w, events).threads[t].Done?
    decreases StepsLeft(w.ViewOf(sid))
  {
    ViewAfterStep(w, t, Go, sid);
    var c := LeadsOn(w.ViewOf(sid), w.issued, aim);
    var e := Proceed(t, c);
    ViewAfterStep(w, t, c, sid);
    StepOnItsWay(w, e, t, sid, aim);
    var next := Next(w, e);
    events := [];
    if !next.threads[t].Done? {
      events := CanBeDone(next, t, sid, aim);
    }
    assert ([e] + events)[1..] == events;
    events := [e] + events;
  }

  /** A session that was destroyed stays closed and empty, and is never found again. */
  lemma {:induction false} DestroyedForGood(w: World, events: seq<Event>, sid: SessionId)
    requires Inv(w) && HasMet(w, sid, DestroyIt)
    ensures HasMet(RunFrom(w, events), sid, DestroyIt)
    decreases |events|
  {
    if events != [] {
      NextKeeps(w, events[0]);
      StaysDestroyed(w, events[0], sid);
      DestroyedForGood(Next(w, events[0]), events[1..], sid);
    }
  }

  lemma StaysDestroyed(w: World, e: Event, sid: SessionId)
    requires Inv(w) && HasMet(w, sid, DestroyIt)
    ensures HasMet(Next(w, e), sid, DestroyIt)
  {
    var next := Next(w, e);
    assert Facts(w.ViewOf(sid));
    if e.Proceed? && w.sessions[sid].lock == Some(e.thread) {
      ViewAfterStep(w, e.thread, e.choice, sid);
    } else {
      OnlyTheHolderTouches(w, e, sid);
      assert next.sessions[sid].(lock := None).local == next.sessions[sid].local;
      assert next.sessions[sid].(lock := None).closed == next.sessions[sid].closed;
      NotFoundAgain(w, e, sid);
    }
  }

  lemma NotFoundAgain(w: World, e: Event, sid: SessionId)
    requires Inv(w) && sid in w.sessions && sid !in w.registered
    ensures sid !in Next(w, e).registered
  {
    if e.Proceed? && e.thread in w.threads && Holds(w.threads[e.thread]).Some? {
      var other := w.threads[e.thread].sid;
      assert Next(w, e) == Into(w, e.thread, other, LockedStepOf(w.ViewOf(other), w.issued, e.choice));
    }
  }

  lemma {:induction false} RunJoins(w: World, first: seq<Event>, rest: seq<Event>)
    requires Inv(w)
    ensures RunFrom(w, first + rest) == RunFrom(RunFrom(w, first), rest)
    decreases |first|
  {
    if first == [] {
      assert first + rest == rest;
    } else {
      NextKeeps(w, first[0]);
      assert (first + rest)[0] == first[0] && (first + rest)[1..] == first[1..] + rest;
      RunJoins(Next(w, first[0]), first[1..], rest);
    }
  }

  lemma RunOne(w: World, e: Event)
    requires Inv(w)
    ensures Inv(Next(w, e)) && RunFrom(w, [e]) == Next(w, e)
  {
    NextKeeps(w, e);
    assert [e][1..] == [];
    assert RunFrom(Next(w, e), []) == Next(w, e);
  }

  /** A request about a session whose lock is free gets in, and finds the session as it was. */
  lemma GetsIn(w: World, t: ThreadId, sid: SessionId, task: Task) returns (events: seq<Event>)
    requires Inv(w) && t in w.threads && w.threads[t] == SessionLookup(sid, task)
    requires sid in w.registered && w.sessions[sid].lock.None?
    ensures var after := RunFrom(w, events);
            && t in after.threads && after.threads[t] == Entered(sid, task) && after.owner == w.owner
            && sid in after.sessions && after.sessions[sid] == w.sessions[sid].(lock := Some(t))
  {
    var e := Proceed(t, Go);
    RunOne(w, e);
    RunOne(Next(w, e), e);
    events := [e] + [e];
    RunJoins(w, [e], [e]);
  }

  /** A request about a live state of an open session gets to work on it. */
  lemma UseGetsToWork(w: World, t: ThreadId, sid: SessionId, x: StateId) returns (events: seq<Event>)
    requires Inv(w) && t in w.threads && w.threads[t] == Entered(sid, Use(x))
    requires sid in w.sessions && w.sessions[sid].lock == Some(t)
    requires !w.sessions[sid].closing && x in w.owner && w.owner[x] == sid
    ensures t in RunFrom(w, events).threads && RunFrom(w, events).threads[t] == Working(sid, Some(x), {})
  {
    assert w.Holder(sid) == w.threads[t] && x in w.OwnedBy(sid);
    var next := Check(w, t, sid, OwnerCheck(sid, x));
    var rest := UseIsChecked(next, t, sid, x);
    RunJoins(w, [Proceed(t, Go)], rest);
    events := [Proceed(t, Go)] + rest;
  }

  lemma UseIsChecked(w: World, t: ThreadId, sid: SessionId, x: StateId) returns (events: seq<Event>)
    requires Inv(w) && t in w.threads && w.threads[t] == OwnerCheck(sid, x)
    requires sid in w.sessions && w.sessions[sid].lock == Some(t) && x in w.ViewOf(sid).owned
    ensures t in RunFrom(w, events).threads && RunFrom(w, events).threads[t] == Working(sid, Some(x), {})
  {
    assert w.Holder(sid) == w.threads[t];
    OwnedIsStored(w, sid);
    var next := Check(w, t, sid, LocalCheck(sid, x));
    var last := Check(next, t, sid, Working(sid, Some(x), {}));
    RunJoins(w, [Proceed(t, Go)], [Proceed(t, Go)]);
    events := [Proceed(t, Go)] + [Proceed(t, Go)];
  }

  /** So does one that asks for the first state. */
  lemma InitGetsToWork(w: World, t: ThreadId, sid: SessionId) returns (events: seq<Event>)
    requires Inv(w) && t in w.threads && w.threads[t] == Entered(sid, Init)
    requires sid in w.sessions && w.sessions[sid].lock == Some(t) && !w.sessions[sid].closing
    ensures t in RunFrom(w, events).threads && RunFrom(w, events).threads[t] == Working(sid, None, {})
  {
    assert w.Holder(sid) == w.threads[t];
    var next := Check(w, t, sid, Working(sid, None, {}));
    events := [Proceed(t, Go)];
  }

  /** A step that only looks. */
  lemma Check(w: World, t: ThreadId, sid: SessionId, pc: Pc) returns (next: World)
    requires Inv(w) && t in w.threads && Holds(w.threads[t]) == Some(sid)
    requires sid in w.sessions && w.sessions[sid].lock == Some(t)
    requires ViewAfter(w.ViewOf(sid), w.issued, Go) == w.ViewOf(sid).(holder := pc) && Holds(pc) == Some(sid)
    ensures next == RunFrom(w, [Proceed(t, Go)]) && Inv(next) && t in next.threads && next.threads[t] == pc
    ensures sid in next.sessions && next.ViewOf(sid) == w.ViewOf(sid).(holder := pc)
    ensures next.sessions[sid] == w.sessions[sid]
  {
    next := Next(w, Proceed(t, Go));
    RunOne(w, Proceed(t, Go));
    ViewAfterStep(w, t, Go, sid);
    assert next.ViewOf(sid).session == next.sessions[sid];
  }

  /** The live states of an idle session can be used: from the moment it arrives, a request for one can get to
      work on it by its own steps. */
  lemma LiveStatesCanBeUsed(w: World, t: ThreadId, x: StateId, about: SessionId, task: Task)
      returns (events: seq<Event>)
    requires Inv(w) && t !in w.threads && x in w.owner
    requires w.owner[x] in w.registered && w.sessions[w.owner[x]].lock.None? && !w.sessions[w.owner[x]].closing
    ensures var after := RunFrom(w, [Begin(t, Some(x), about, task)] + events);
            t in after.threads && after.threads[t] == Working(w.owner[x], Some(x), {})
  {
    var begin, e := Begin(t, Some(x), about, task), Proceed(t, Go);
    RunOne(w, begin);
    var arrived := Next(w, begin);
    RunOne(arrived, e);
    var found := Next(arrived, e);
    assert found.threads[t] == SessionLookup(w.owner[x], Use(x));
    var entry := GetsIn(found, t, w.owner[x], Use(x));
    var work := UseGetsToWork(RunFrom(found, entry), t, w.owner[x], x);
    RunJoins(found, entry, work);
    RunJoins(arrived, [e], entry + work);
    RunJoins(w, [begin], [e] + (entry + work));
    events := [e] + (entry + work);
  }

  /** And a request to drop states, or all of them, or to destroy an idle session, can reach its aim. */
  lemma AimsCanBeReached(w: World, t: ThreadId, sid: SessionId, aim: Aim) returns (events: seq<Event>)
    requires Inv(w) && t !in w.threads && sid in w.registered && w.sessions[sid].lock.None?
    requires aim.DropThem? || !w.sessions[sid].closing
    ensures var task := match aim case DropThem(ids) => Drop(ids) case EmptyIt => DropAll case DestroyIt => Destroy;
            HasMet(RunFrom(w, [Begin(t, None, sid, task)] + events), sid, aim)
  {
    var task := match aim case DropThem(ids) => Drop(ids) case EmptyIt => DropAll case DestroyIt => Destroy;
    var begin := Begin(t, None, sid, task);
    RunOne(w, begin);
    var arrived := Next(w, begin);
    var entry := GetsIn(arrived, t, sid, task);
    var inside := RunFrom(arrived, entry);
    assert inside.Holder(sid) == inside.threads[t];
    var steps := CanBeDone(inside, t, sid, aim);
    RunsToItsAim(inside, steps, t, sid, aim);
    var n: nat :| n <= |steps| && MetBy(inside, steps, n, sid, aim);
    RunJoins(arrived, entry, steps[..n]);
    RunJoins(w, [begin], entry + steps[..n]);
    events := entry + steps[..n];
  }

  /** What a request computes is stored and then owned, under an id that nobody had. */
  lemma WorkIsRegistered(w: World, t: ThreadId, id: StateId, value: int)
    requires Inv(w) && t in w.threads && w.threads[t].Working? && id !in w.issued
    ensures var sid := w.threads[t].sid;
            var after := RunFrom(w, [Proceed(t, Fresh(id, value)), Proceed(t, Go)]);
            && id in after.owner && after.owner[id] == sid
            && sid in after.sessions && id in after.sessions[sid].local && after.sessions[sid].local[id] == value
  {
    var e, f := Proceed(t, Fresh(id, value)), Proceed(t, Go);
    RunOne(w, e);
    RunOne(Next(w, e), f);
    RunJoins(w, [e], [f]);
    assert [e] + [f] == [e, f];
    FreshIsStored(w, t, w.threads[t].sid, id, value);
    StoredIsOwned(Next(w, e), t, w.threads[t].sid, id);
  }

  lemma FreshIsStored(w: World, t: ThreadId, sid: SessionId, id: StateId, value: int)
    requires Inv(w) && t in w.threads && w.threads[t].Working? && w.threads[t].sid == sid && id !in w.issued
    ensures var next := Next(w, Proceed(t, Fresh(id, value)));
            && Inv(next) && t in next.threads && next.threads[t].Stored? && next.threads[t].sid == sid
            && next.threads[t].id == id
            && sid in next.sessions && id in next.sessions[sid].local && next.sessions[sid].local[id] == value
  {
    NextKeeps(w, Proceed(t, Fresh(id, value)));
    SessionAfterItsHolder(w, t, Fresh(id, value), sid);
  }

  lemma StoredIsOwned(w: World, t: ThreadId, sid: SessionId, id: StateId)
    requires Inv(w) && t in w.threads && w.threads[t].Stored? && w.threads[t].sid == sid && w.threads[t].id == id
    ensures var next := Next(w, Proceed(t, Go));
            && id in next.owner && next.owner[id] == sid
            && sid in next.sessions && next.sessions[sid].local == w.sessions[sid].local
  {
    SessionAfterItsHolder(w, t, Go, sid);
  }

  /** One that wants a session that is being destroyed leaves it alone, but for states that are to be dropped. */
  lemma ClosedToRequests(w: World, t: ThreadId, sid: SessionId, task: Task, c: Choice)
    requires Inv(w) && t in w.threads && w.threads[t] == Entered(sid, task)
    requires w.sessions[sid].closing && !task.Drop?
    ensures Step(w, t, c) == w.(threads := w.threads[t := Releasing(sid)])
  {
    var w' := Step(w, t, c);
    assert w'.sessions == w.sessions && w'.registered == w.registered && w'.issued == w.issued;
  }
}
