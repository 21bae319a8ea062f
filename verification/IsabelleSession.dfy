/** IsabelleSession.scala: parsed theories, live states and replay checkpoints of one session. */
module IsabelleSession {
  import opened RepairModel
  import opened ProverStates
  import opened ReplayPlanner

  type Path = string

  // ---------------------------------------------------------------- the prover

  /** Isabelle as an arbitrary deterministic prover: what a command does to a state, if anything, and
      how many milliseconds it takes. `parse` reads a tactic in the theory of a state; None is a syntax error. */
  datatype Isabelle = Isabelle(
    effect: (ToplevelState, Transition) -> Option<ToplevelState>,
    cost: (ToplevelState, Transition) -> nat,
    parse: (ToplevelState, string) -> Option<seq<Transition>>,
    initial: ToplevelState)
  {
    /** Runs commands until one fails or the time is up. */
    function Fold(trs: seq<Transition>, s: ToplevelState, budget: int): ExecOutcome {
      if trs == [] then Executed(s)
      else if cost(s, trs[0]) > budget then Rejected(true)
      else
        match effect(s, trs[0])
        case None => Rejected(false)
        case Some(next) => Fold(trs[1..], next, budget - cost(s, trs[0]))
    }

    function AsyncExecute(trs: seq<Transition>, s: ToplevelState, timeoutMs: int): ExecOutcome {
      Fold(trs, s, timeoutMs * |trs|)
    }

    /** What commands do if time does not matter. */
    ghost function Effects(trs: seq<Transition>, s: ToplevelState): Option<ToplevelState> {
      if trs == [] then Some(s)
      else
        match Effects(trs[..|trs| - 1], s)
        case None => None
        case Some(before) => effect(before, trs[|trs| - 1])
    }

    /** How long commands take, one after the other, as far as they get. */
    ghost function Spent(trs: seq<Transition>, s: ToplevelState): nat {
      if trs == [] then 0
      else
        var n := |trs| - 1;
        Spent(trs[..n], s) + match Effects(trs[..n], s) case None => 0 case Some(before) => cost(before, trs[n])
    }

    /** The commands before the k-th finish within the budget, and the k-th does not, or fails. */
    ghost predicate StopsAt(trs: seq<Transition>, s: ToplevelState, budget: int, k: nat, timedOut: bool)
      requires k < |trs|
    {
      match Effects(trs[..k], s)
      case None => false
      case Some(before) =>
        var left := budget - Spent(trs[..k], s);
        && (k == 0 || 0 <= left)
        && if timedOut then cost(before, trs[k]) > left
           else cost(before, trs[k]) <= left && effect(before, trs[k]).None?
    }

    ghost predicate Stops(trs: seq<Transition>, s: ToplevelState, budget: int, timedOut: bool) {
      exists k :: 0 <= k < |trs| && StopsAt(trs, s, budget, k, timedOut)
    }

    /** Commands that run on one budget come to their effect if they finish within it. Otherwise some command,
        after others that finish within it, runs out of it, or has no effect. */
    lemma {:induction false} FoldMeans(trs: seq<Transition>, s: ToplevelState, budget: int)
      requires trs != [] || budget >= 0
      ensures match Fold(trs, s, budget)
              case Executed(end) => Effects(trs, s) == Some(end) && Spent(trs, s) <= budget
              case Rejected(timedOut) => Stops(trs, s, budget, timedOut)
    {
      if trs != [] {
        assert trs[..0] == [];
        if cost(s, trs[0]) > budget || effect(s, trs[0]).None? {
          var timedOut := cost(s, trs[0]) > budget;
          assert StopsAt(trs, s, budget, 0, timedOut);
        } else {
          var next, left := effect(s, trs[0]).value, budget - cost(s, trs[0]);
          FoldMeans(trs[1..], next, left);
          FirstThenRest(trs, s);
          match Fold(trs[1..], next, left)
          case Executed(_) =>
          case Rejected(timedOut) =>
            var k :| 0 <= k < |trs| - 1 && StopsAt(trs[1..], next, left, k, timedOut);
            FirstThenRest(trs[..k + 1], s);
            assert trs[..k + 1][1..] == trs[1..][..k];
            assert StopsAt(trs, s, budget, k + 1, timedOut);
        }
      }
    }

    /** A tactic comes to its effect iff its commands have one and finish within the timeout for each of them
        taken together. It is timed out, or fails, iff some command is the first to run out of that time, or to
        have no effect. */
    lemma AsyncExecuteMeans(trs: seq<Transition>, s: ToplevelState, timeoutMs: int)
      ensures forall end :: AsyncExecute(trs, s, timeoutMs) == Executed(end) <==>
                            Effects(trs, s) == Some(end) && Spent(trs, s) <= timeoutMs * |trs|
      ensures forall timedOut :: AsyncExecute(trs, s, timeoutMs) == Rejected(timedOut) <==>
                                 Stops(trs, s, timeoutMs * |trs|, timedOut)
    {
      var budget := timeoutMs * |trs|;
      assert trs == [] ==> budget == 0;
      FoldMeans(trs, s, budget);
      forall timedOut | Stops(trs, s, budget, timedOut)
        ensures Fold(trs, s, budget) == Rejected(timedOut)
      {
        var k :| 0 <= k < |trs| && StopsAt(trs, s, budget, k, timedOut);
        FoldStops(trs, s, budget, k, timedOut);
      }
      if Effects(trs, s).Some? && Spent(trs, s) <= budget {
        FoldFinishes(trs, s, budget);
      }
    }

    lemma {:induction false} FoldStops(trs: seq<Transition>, s: ToplevelState, budget: int, k: nat, timedOut: bool)
      requires k < |trs| && StopsAt(trs, s, budget, k, timedOut)
      ensures Fold(trs, s, budget) == Rejected(timedOut)
    {
      if k == 0 {
        assert trs[..0] == [];
      } else {
        FirstHasEffect(trs[..k], s);
        FirstThenRest(trs[..k], s);
        assert trs[..k][1..] == trs[1..][..k - 1];
        FoldStops(trs[1..], effect(s, trs[0]).value, budget - cost(s, trs[0]), k - 1, timedOut);
      }
    }

    lemma {:induction false} FoldFinishes(trs: seq<Transition>, s: ToplevelState, budget: int)
      requires Effects(trs, s).Some? && Spent(trs, s) <= budget
      ensures Fold(trs, s, budget).Executed?
    {
      if trs != [] {
        FirstHasEffect(trs, s);
        FirstThenRest(trs, s);
        FoldFinishes(trs[1..], effect(s, trs[0]).value, budget - cost(s, trs[0]));
      }
    }

    lemma {:induction false} FirstHasEffect(trs: seq<Transition>, s: ToplevelState)
      requires trs != [] && Effects(trs, s).Some?
      ensures effect(s, trs[0]).Some?
    {
      assert trs[..0] == [];
      if |trs| > 1 { FirstHasEffect(trs[..|trs| - 1], s); }
    }

    lemma {:induction false} FirstThenRest(trs: seq<Transition>, s: ToplevelState)
      requires trs != [] && effect(s, trs[0]).Some?
      ensures Effects(trs, s) == Effects(trs[1..], effect(s, trs[0]).value)
      ensures Spent(trs, s) == cost(s, trs[0]) + Spent(trs[1..], effect(s, trs[0]).value)
    {
      var n := |trs| - 1;
      assert trs[..0] == [];
      if n == 0 {
        assert trs[..n] == [] && trs[1..] == [];
      } else {
        FirstThenRest(trs[..n], s);
        assert trs[..n][1..] == trs[1..][..n - 1];
      }
    }

    /** Replay from scratch: one command after the other, each with its own timeout. */
    ghost function Replay(trs: seq<Transition>, s: ToplevelState, timeoutMs: int): ReplayResult {
      if trs == [] then Reached(s)
      else
        match Replay(trs[..|trs| - 1], s, timeoutMs)
        case Stuck(done, last, timedOut) => Stuck(done, last, timedOut)
        case Reached(before) =>
          match AsyncExecute([trs[|trs| - 1]], before, timeoutMs)
          case Executed(next) => Reached(next)
          case Rejected(timedOut) => Stuck(|trs| - 1, before, timedOut)
    }

    /** A replay that starts where another one ended is the rest of one replay. */
    lemma {:induction false} ReplayJoins(first: seq<Transition>, rest: seq<Transition>, s: ToplevelState,
                                         timeoutMs: int)
      ensures Replay(first + rest, s, timeoutMs) ==
              match Replay(first, s, timeoutMs)
              case Stuck(done, last, timedOut) => Stuck(done, last, timedOut)
              case Reached(middle) =>
                match Replay(rest, middle, timeoutMs)
                case Reached(end) => Reached(end)
                case Stuck(done, last, timedOut) => Stuck(|first| + done, last, timedOut)
    {
      if rest == [] {
        assert first + rest == first;
      } else {
        assert (first + rest)[..|first + rest| - 1] == first + rest[..|rest| - 1];
        ReplayJoins(first, rest[..|rest| - 1], s, timeoutMs);
      }
    }

    /** What the first `n` commands of a theory do one after the other, as far as they have a line up to `upto`. */
    ghost function Through(theory: seq<Transition>, upto: int, n: nat): Option<ToplevelState>
      requires n <= |theory|
    {
      if n == 0 then Some(initial)
      else
        match Through(theory, upto, n - 1)
        case None => None
        case Some(s) => if 0 < theory[n - 1].line <= upto then effect(s, theory[n - 1]) else Some(s)
    }

    /** The commands that a replay picks do what the theory does. */
    lemma {:induction false} ThroughIsEffects(theory: seq<Transition>, upto: int, n: nat)
      requires n <= |theory|
      ensures Through(theory, upto, n) == Effects(Between(theory[..n], 0, upto), initial)
    {
      if n > 0 {
        ThroughIsEffects(theory, upto, n - 1);
        assert theory[..n] == theory[..n - 1] + [theory[n - 1]];
        BetweenJoins(theory[..n - 1], [theory[n - 1]], 0, upto);
        var before := Between(theory[..n - 1], 0, upto);
        if 0 < theory[n - 1].line <= upto {
          assert (before + [theory[n - 1]])[..|before|] == before;
        } else {
          assert before + [] == before;
        }
      }
    }

    /** A replay that is not stuck did what the commands do; one that is stuck got as far as it says. */
    lemma {:induction false} ReplayMeans(trs: seq<Transition>, s: ToplevelState, timeoutMs: int)
      ensures match Replay(trs, s, timeoutMs)
              case Reached(end) => Effects(trs, s) == Some(end)
              case Stuck(done, last, timedOut) =>
                && done < |trs| && Effects(trs[..done], s) == Some(last)
                && timedOut == (cost(last, trs[done]) > timeoutMs)
                && (!timedOut ==> effect(last, trs[done]).None?)
    {
      if trs != [] {
        var before := trs[..|trs| - 1];
        ReplayMeans(before, s, timeoutMs);
        assert forall k :: 0 <= k < |before| ==> before[..k] == trs[..k];
        if Replay(before, s, timeoutMs).Reached? {
          OneCommand(trs[|trs| - 1], Replay(before, s, timeoutMs).state, timeoutMs);
        }
      }
    }

    lemma OneCommand(tr: Transition, s: ToplevelState, timeoutMs: int)
      ensures AsyncExecute([tr], s, timeoutMs) ==
              if cost(s, tr) > timeoutMs then Rejected(true)
              else match effect(s, tr) case None => Rejected(false) case Some(next) => Executed(next)
    {
      assert [tr][1..] == [] && timeoutMs * |[tr]| == timeoutMs;
      if cost(s, tr) <= timeoutMs && effect(s, tr).Some? {
        assert Fold([tr][1..], effect(s, tr).value, timeoutMs - cost(s, tr)) == Executed(effect(s, tr).value);
      }
    }

    /** Every command of a replay finishes within the timeout. */
    ghost predicate InTime(trs: seq<Transition>, s: ToplevelState, timeoutMs: int) {
      forall k :: 0 <= k < |trs| ==>
        match Effects(trs[..k], s)
        case None => true
        case Some(before) => cost(before, trs[k]) <= timeoutMs
    }

    /** Commands that lead somewhere are replayed to the end iff they finish in time. */
    lemma {:induction false} ReplayInTime(trs: seq<Transition>, s: ToplevelState, timeoutMs: int)
      requires Effects(trs, s).Some?
      ensures Replay(trs, s, timeoutMs).Reached? <==> InTime(trs, s, timeoutMs)
    {
      if trs != [] {
        var n := |trs| - 1;
        var before := trs[..n];
        ReplayInTime(before, s, timeoutMs);
        ReplayMeans(before, s, timeoutMs);
        assert forall k :: 0 <= k < n ==> before[..k] == trs[..k];
        OneCommand(trs[n], Effects(before, s).value, timeoutMs);
        assert InTime(trs, s, timeoutMs) <==>
               InTime(before, s, timeoutMs) && cost(Effects(before, s).value, trs[n]) <= timeoutMs;
      }
    }

    /** A replay that is stuck at a command has got through those before it in time. */
    lemma {:induction false} StuckInTime(trs: seq<Transition>, s: ToplevelState, timeoutMs: int)
      requires Replay(trs, s, timeoutMs).Stuck?
      ensures var done := Replay(trs, s, timeoutMs).done;
              done < |trs| && InTime(trs[..done], s, timeoutMs)
    {
      var n := |trs| - 1;
      ReplayMeans(trs[..n], s, timeoutMs);
      if Replay(trs[..n], s, timeoutMs).Stuck? {
        StuckInTime(trs[..n], s, timeoutMs);
        var done := Replay(trs, s, timeoutMs).done;
        assert trs[..n][..done] == trs[..done];
      } else {
        ReplayInTime(trs[..n], s, timeoutMs);
      }
    }

    lemma {:induction false} EffectsJoin(first: seq<Transition>, rest: seq<Transition>, s: ToplevelState)
      ensures Effects(first + rest, s) ==
              match Effects(first, s) case None => None case Some(middle) => Effects(rest, middle)
    {
      if rest == [] {
        assert first + rest == first;
      } else {
        assert (first + rest)[..|first + rest| - 1] == first + rest[..|rest| - 1];
        EffectsJoin(first, rest[..|rest| - 1], s);
      }
    }
  }

  /** A replay reaches a state, or is stuck after `done` commands in state `last`. */
  datatype ReplayResult = Reached(state: ToplevelState) | Stuck(done: nat, last: ToplevelState, timedOut: bool)

  // ---------------------------------------------------------------- results

  datatype CacheKey = CacheKey(path: Path, line: int)

  datatype InitStateErrorCode = InitNotFound | InitAmbiguous | InitTimeout | InitExecutionFailed

  datatype ComputedInitState =
    | ComputedInitSuccess(state: ToplevelState, cacheKey: CacheKey)
    | ComputedInitFailure(failedLine: int, lastSuccess: Option<ToplevelState>, code: InitStateErrorCode,
                          candidateLines: seq<int>)

  datatype ComputedState = ComputedState(state: ToplevelState, status: ExecStatus)

  /** The answer tells what a replay of `trs` from scratch tells: the state it reaches, or where and why
      it is stuck, with the state before the failing command, unless nothing was executed and the replay
      started at the top. */
  ghost predicate Agrees(r: ComputedInitState, trs: seq<Transition>, key: CacheKey, start: int, scratch: ReplayResult)
  {
    match scratch
    case Reached(state) => r == ComputedInitSuccess(state, key)
    case Stuck(done, last, timedOut) =>
      && done < |trs| && r.ComputedInitFailure?
      && r.failedLine == trs[done].line && r.candidateLines == []
      && r.code == (if timedOut then InitTimeout else InitExecutionFailed)
      && r.lastSuccess == if done == 0 && start <= 0 then None else Some(last)
  }

  /** Whatever the checkpoint, an answer is true: a success is the state that the commands of the theory up
      to the target line lead to, and a failure is the failure of one of them in the very state that those
      before it lead to. */
  ghost predicate IsTrue(isabelle: Isabelle, theory: seq<Transition>, r: ComputedInitState, key: CacheKey, start: int,
                         timeoutMs: int)
  {
    match r
    case ComputedInitSuccess(state, k) => k == key && isabelle.Through(theory, key.line, |theory|) == Some(state)
    case ComputedInitFailure(_, _, _, _) =>
      exists i :: 0 <= i < |theory| && FailsThere(isabelle, theory, r, key, start, i, timeoutMs)
  }

  ghost predicate FailsThere(isabelle: Isabelle, theory: seq<Transition>, r: ComputedInitState, key: CacheKey,
                             start: int, i: nat, timeoutMs: int)
    requires r.ComputedInitFailure? && i < |theory|
  {
    && 0 < theory[i].line <= key.line && r.failedLine == theory[i].line && r.candidateLines == []
    && match isabelle.Through(theory, key.line, i)
       case None => false
       case Some(last) =>
         && r.lastSuccess == (if start <= 0 && IsFirst(theory, key.line, i) then None else Some(last))
         && if isabelle.cost(last, theory[i]) > timeoutMs then r.code.InitTimeout?
            else r.code.InitExecutionFailed? && isabelle.effect(last, theory[i]).None?
  }

  /** No command before the i-th has a line up to `upto`. */
  ghost predicate IsFirst(theory: seq<Transition>, upto: int, i: nat)
    requires i < |theory|
  {
    forall j :: 0 <= j < i ==> !(0 < theory[j].line <= upto)
  }

  function ErrorCode(timedOut: bool): InitStateErrorCode {
    if timedOut then InitTimeout else InitExecutionFailed
  }

  /** What the replay loop reports about the commands after line `start`. */
  function Answer(key: CacheKey, start: int, trs: seq<Transition>, result: ReplayResult): ComputedInitState
    requires result.Stuck? ==> result.done < |trs|
  {
    match result
    case Reached(state) => ComputedInitSuccess(state, key)
    case Stuck(done, last, timedOut) =>
      var lastLine := if done == 0 then start else trs[done - 1].line;
      ComputedInitFailure(trs[done].line, if lastLine > 0 then Some(last) else None, ErrorCode(timedOut), [])
  }

  /** The answer is true, and it is the one of a replay from scratch iff the commands up to line `start`
      finish within the timeout. */
  ghost predicate IsAnswer(isabelle: Isabelle, commands: seq<Transition>, r: ComputedInitState, key: CacheKey,
                           start: int, timeoutMs: int)
  {
    var trs := Between(commands, 0, key.line);
    && IsTrue(isabelle, commands, r, key, start, timeoutMs)
    && (Agrees(r, trs, key, start, isabelle.Replay(trs, isabelle.initial, timeoutMs)) <==>
        isabelle.InTime(Between(commands, 0, start), isabelle.initial, timeoutMs))
  }

  /** What a replay from a checkpoint may rely on. */
  ghost predicate StartsWell(isabelle: Isabelle, theory: seq<Transition>, start: int, target: int,
                             checkpoint: ToplevelState)
  {
    && Ordered(theory) && start <= (if start > 0 then target else 0)
    && (start < 0 ==> forall t :: t in theory ==> t.line > 0)
    && isabelle.Effects(Between(theory, 0, start), isabelle.initial) == Some(checkpoint)
  }

  ghost predicate Answers(isabelle: Isabelle, theory: seq<Transition>, key: CacheKey, start: int,
                          checkpoint: ToplevelState, timeoutMs: int, r: ComputedInitState)
  {
    var rest := Between(theory, start, key.line);
    var result := isabelle.Replay(rest, checkpoint, timeoutMs);
    (result.Stuck? ==> result.done < |rest|) && r == Answer(key, start, rest, result)
  }

  /** Starting at a checkpoint gives true answers. */
  lemma {:induction false} CheckpointAnswersAreTrue(isabelle: Isabelle, theory: seq<Transition>, key: CacheKey,
                                                    start: int, checkpoint: ToplevelState, timeoutMs: int,
                                                    r: ComputedInitState)
    requires StartsWell(isabelle, theory, start, key.line, checkpoint)
    requires Answers(isabelle, theory, key, start, checkpoint, timeoutMs, r)
    ensures IsTrue(isabelle, theory, r, key, start, timeoutMs)
  {
    var first, rest := Between(theory, 0, start), Between(theory, start, key.line);
    CutAtCheckpoint(theory, start, key.line);
    isabelle.ReplayMeans(rest, checkpoint, timeoutMs);
    match isabelle.Replay(rest, checkpoint, timeoutMs)
    case Reached(_) =>
      isabelle.EffectsJoin(first, rest, isabelle.initial);
      isabelle.ThroughIsEffects(theory, key.line, |theory|);
      assert theory[..|theory|] == theory;
    case Stuck(done, last, timedOut) =>
      var i := StuckInTheory(isabelle, theory, start, key.line, checkpoint, done, last);
      assert FailsThere(isabelle, theory, r, key, start, i, timeoutMs);
  }

  /** Where in the theory a replay from a checkpoint is stuck after so many commands. */
  lemma {:induction false} StuckInTheory(isabelle: Isabelle, theory: seq<Transition>, start: int, upto: int,
                                         checkpoint: ToplevelState, done: nat, last: ToplevelState)
      returns (i: nat)
    requires StartsWell(isabelle, theory, start, upto, checkpoint) && done < |Between(theory, start, upto)|
    requires isabelle.Effects(Between(theory, start, upto)[..done], checkpoint) == Some(last)
    ensures i < |theory| && 0 < theory[i].line <= upto && theory[i] == Between(theory, start, upto)[done]
    ensures isabelle.Through(theory, upto, i) == Some(last)
    ensures IsFirst(theory, upto, i) <==> done == 0 && Between(theory, 0, start) == []
  {
    var first, rest := Between(theory, 0, start), Between(theory, start, upto);
    CutAtCheckpoint(theory, start, upto);
    assert (first + rest)[..|first| + done] == first + rest[..done];
    isabelle.EffectsJoin(first, rest[..done], isabelle.initial);
    i := PlaceOf(theory, 0, upto, |first| + done);
    isabelle.ThroughIsEffects(theory, upto, i);
    FirstHasNoneBefore(theory, upto, i);
  }

  lemma {:induction false} FirstHasNoneBefore(theory: seq<Transition>, upto: int, i: nat)
    requires i < |theory|
    ensures IsFirst(theory, upto, i) <==> Between(theory[..i], 0, upto) == []
  {
    if IsFirst(theory, upto, i) {
      NothingBetween(theory[..i], 0, upto);
    } else {
      var j :| 0 <= j < i && 0 < theory[j].line <= upto;
      assert theory[..i][j] == theory[j];
      BetweenMembers(theory[..i], 0, upto, theory[j]);
    }
  }

  /** They are the very answers of a replay from scratch iff the commands up to the checkpoint finish within
      the timeout at hand. */
  lemma {:induction false} CheckpointAnswersAgree(isabelle: Isabelle, theory: seq<Transition>, key: CacheKey,
                                                  start: int, checkpoint: ToplevelState, timeoutMs: int,
                                                  r: ComputedInitState)
    requires StartsWell(isabelle, theory, start, key.line, checkpoint)
    requires Answers(isabelle, theory, key, start, checkpoint, timeoutMs, r)
    ensures
      var trs := Between(theory, 0, key.line);
      Agrees(r, trs, key, start, isabelle.Replay(trs, isabelle.initial, timeoutMs)) <==>
      isabelle.InTime(Between(theory, 0, start), isabelle.initial, timeoutMs)
  {
    var first, rest := Between(theory, 0, start), Between(theory, start, key.line);
    CutAtCheckpoint(theory, start, key.line);
    isabelle.ReplayInTime(first, isabelle.initial, timeoutMs);
    isabelle.ReplayMeans(first, isabelle.initial, timeoutMs);
    isabelle.ReplayJoins(first, rest, isabelle.initial, timeoutMs);
  }

  /** The commands up to the checkpoint and the ones after it, told apart by their lines. */
  lemma {:induction false} CutAtCheckpoint(theory: seq<Transition>, start: int, target: int)
    requires Ordered(theory) && start <= (if start > 0 then target else 0)
    requires start < 0 ==> forall t :: t in theory ==> t.line > 0
    ensures
      var first, rest := Between(theory, 0, start), Between(theory, start, target);
      && Between(theory, 0, target) == first + rest
      && (forall k :: 0 <= k < |first| ==> 0 < first[k].line <= start)
      && (forall k :: 0 <= k < |rest| ==> rest[k].line > start && rest[k].line > 0)
      && (start <= 0 ==> first == [])
  {
    var first, rest := Between(theory, 0, start), Between(theory, start, target);
    if start > 0 {
      BetweenSplits(theory, 0, start, target);
    } else {
      NothingBetween(theory, 0, start);
      if start < 0 { NegativeIsZero(theory, start, target); }
    }
    forall k | 0 <= k < |first| ensures 0 < first[k].line <= start { BetweenMembers(theory, 0, start, first[k]); }
    forall k | 0 <= k < |rest| ensures rest[k].line > start && rest[k].line > 0 {
      BetweenMembers(theory, start, target, rest[k]);
    }
  }

  /** A prover that accepts every command and counts them. */
  const COUNTING := Isabelle((s: ToplevelState, t: Transition) => Some(s.(context := s.context + 1)),
                             (s: ToplevelState, t: Transition) => 0,
                             (s: ToplevelState, text: string) => None,
                             ToplevelState(Toplevel, 0, 0))

  /** So a true answer accounts for every command up to the target once: the counting prover gets as far as
      there are such commands. */
  lemma {:induction false} CountingThrough(theory: seq<Transition>, upto: int, n: nat)
    requires n <= |theory|
    ensures COUNTING.Through(theory, upto, n) ==
            Some(ToplevelState(Toplevel, 0, |set k: nat | k < n && 0 < theory[k].line <= upto|))
  {
    var picked := set k: nat | k < n && 0 < theory[k].line <= upto;
    if n == 0 {
      assert picked == {};
    } else {
      CountingThrough(theory, upto, n - 1);
      var before := set k: nat | k < n - 1 && 0 < theory[k].line <= upto;
      assert picked == if 0 < theory[n - 1].line <= upto then before + {n - 1} else before;
    }
  }

  /** The answers differ in one respect even if the commands up to the checkpoint finish in time: where none
      was executed before the one that fails, a replay from scratch names no last success, and one from a
      checkpoint at a line above that command names the initial state. */
  lemma CheckpointAboveFirstCommand(line: int, timeoutMs: nat) returns (isabelle: Isabelle, theory: seq<Transition>)
    requires line > 1
    ensures
      var key, none := CacheKey("A.thy", line), Some(isabelle.initial);
      && StartsWell(isabelle, theory, 1, line, isabelle.initial)
      && Answers(isabelle, theory, key, 1, isabelle.initial, timeoutMs,
                 ComputedInitFailure(line, none, InitExecutionFailed, []))
      && Answers(isabelle, theory, key, 0, isabelle.initial, timeoutMs,
                 ComputedInitFailure(line, None, InitExecutionFailed, []))
  {
    isabelle := COUNTING.(effect := (s: ToplevelState, t: Transition) => None);
    theory := [Transition(line, "by simp")];
    assert theory[1..] == [];
    assert Between(theory[1..], 0, line) == [] && Between(theory[1..], 1, line) == [];
    assert Between(theory, 0, line) == theory && Between(theory, 1, line) == theory;
    NothingBetween(theory, 0, 1);
    assert theory[..0] == [];
    isabelle.OneCommand(theory[0], isabelle.initial, timeoutMs);
    assert isabelle.Replay(theory, isabelle.initial, timeoutMs) == Stuck(0, isabelle.initial, false);
  }

  lemma {:induction false} CountingReplay(trs: seq<Transition>, timeoutMs: nat)
    ensures COUNTING.Replay(trs, COUNTING.initial, timeoutMs) == Reached(ToplevelState(Toplevel, 0, |trs|))
  {
    if trs != [] {
      var n := |trs| - 1;
      CountingReplay(trs[..n], timeoutMs);
      COUNTING.OneCommand(trs[n], ToplevelState(Toplevel, 0, n), timeoutMs);
    }
  }

  /** Targets that are not negative are exactly what a session needs, unless every command has a position:
      after a checkpoint at any negative line, whose state is right, any later replay from it also runs the
      commands without a position, and ends in another state than a replay from scratch. */
  lemma {:induction false} NegativeCheckpointMisleads(theory: seq<Transition>, k: nat, start: int, target: nat,
                                                      timeoutMs: nat)
    requires start < 0 && k < |theory| && theory[k].line == 0
    ensures COUNTING.Effects(Between(theory, 0, start), COUNTING.initial) == Some(COUNTING.initial)
    ensures COUNTING.Replay(Between(theory, start, target), COUNTING.initial, timeoutMs)
         != COUNTING.Replay(Between(theory, 0, target), COUNTING.initial, timeoutMs)
  {
    NothingBetween(theory, 0, start);
    PositionlessCounted(theory, k, start, target);
    CountingReplay(Between(theory, start, target), timeoutMs);
    CountingReplay(Between(theory, 0, target), timeoutMs);
  }

  lemma {:induction false} PositionlessCounted(theory: seq<Transition>, k: int, start: int, target: nat)
    requires start < 0 && k < |theory| && (k >= 0 ==> theory[k].line == 0)
    ensures |Between(theory, start, target)| >= |Between(theory, 0, target)| + if k >= 0 then 1 else 0
  {
    if theory != [] {
      PositionlessCounted(theory[1..], k - 1, start, target);
      if k == 0 { PositionlessCounted(theory[1..], -1, start, target); }
    }
  }

  /** A prover that accepts every command and watches their order: its context is 0 until a command after
      line `middle` comes, then 1, and 2 as soon as one up to that line follows. */
  function Watching(middle: int): Isabelle {
    Isabelle((s: ToplevelState, t: Transition) => Some(s.(context := Watch(middle, s.context, t))),
             (s: ToplevelState, t: Transition) => 0,
             (s: ToplevelState, text: string) => None,
             ToplevelState(Toplevel, 0, 0))
  }

  function Watch(middle: int, seen: int, t: Transition): int {
    if seen == 0 && t.line > middle then 1 else if seen == 1 && t.line <= middle then 2 else seen
  }

  ghost predicate Inverted(trs: seq<Transition>, middle: int, p: int, q: int) {
    0 <= p < q < |trs| && trs[p].line > middle && trs[q].line <= middle
  }

  /** What the watching prover has seen after a replay. */
  lemma {:induction false} WatchingReplay(middle: int, trs: seq<Transition>, timeoutMs: nat) returns (seen: int)
    ensures Watching(middle).Replay(trs, Watching(middle).initial, timeoutMs) ==
            Reached(ToplevelState(Toplevel, 0, seen))
    ensures Watching(middle).Effects(trs, Watching(middle).initial) == Some(ToplevelState(Toplevel, 0, seen))
    ensures 0 <= seen <= 2
    ensures seen == 0 <==> forall k :: 0 <= k < |trs| ==> trs[k].line <= middle
    ensures seen == 2 <==> exists p, q :: Inverted(trs, middle, p, q)
  {
    if trs == [] {
      seen := 0;
    } else {
      var n := |trs| - 1;
      var before := WatchingReplay(middle, trs[..n], timeoutMs);
      Watching(middle).OneCommand(trs[n], ToplevelState(Toplevel, 0, before), timeoutMs);
      seen := Watch(middle, before, trs[n]);
      if before == 2 {
        var p, q :| Inverted(trs[..n], middle, p, q);
        assert Inverted(trs, middle, p, q);
      } else if seen == 2 {
        var p :| 0 <= p < n && trs[..n][p].line > middle;
        assert Inverted(trs, middle, p, n);
      } else if p, q :| Inverted(trs, middle, p, q) {
        assert q < n ==> Inverted(trs[..n], middle, p, q);
        assert trs[..n][p].line > middle;
      }
    }
  }

  /** Ordered lines are exactly what a session needs: with two commands out of order, a replay from the
      checkpoint at the lower of their lines, whose state is right, does not end where a replay from scratch
      does. */
  lemma {:induction false} DisorderMisleads(theory: seq<Transition>, i: nat, j: nat, timeoutMs: nat)
    requires i < j < |theory| && theory[i].line > theory[j].line > 0
    ensures
      var middle, upto := theory[j].line, theory[i].line;
      var isabelle := Watching(middle);
      && isabelle.Effects(Between(theory, 0, middle), isabelle.initial) == Some(isabelle.initial)
      && isabelle.Replay(Between(theory, middle, upto), isabelle.initial, timeoutMs)
         != isabelle.Replay(Between(theory, 0, upto), isabelle.initial, timeoutMs)
  {
    var middle, upto := theory[j].line, theory[i].line;
    var low, high, all := Between(theory, 0, middle), Between(theory, middle, upto), Between(theory, 0, upto);
    forall k | 0 <= k < |low| ensures low[k].line <= middle { BetweenMembers(theory, 0, middle, low[k]); }
    forall k | 0 <= k < |high| ensures high[k].line > middle { BetweenMembers(theory, middle, upto, high[k]); }
    var p, q := BetweenKeepsOrder(theory, i, j, 0, upto);
    assert Inverted(all, middle, p, q);
    var _ := WatchingReplay(middle, low, timeoutMs);
    var afterHigh := WatchingReplay(middle, high, timeoutMs);
    var afterAll := WatchingReplay(middle, all, timeoutMs);
  }

  /** `start` is the line of the latest checkpoint at or before the key's, or 0 if there is none. */
  ghost predicate LatestIn(initCache: map<CacheKey, StateId>, key: CacheKey, start: int) {
    && (start == 0 || (start <= key.line && CacheKey(key.path, start) in initCache))
    && (forall k :: k in initCache && k.path == key.path && k.line <= key.line ==> k.line <= start)
  }

  // ---------------------------------------------------------------- the session

  class IsabelleSession {
    const isabelle: Isabelle
    const normalize: string -> string
    const readTheory: (nat, Path) -> seq<Transition>  // what parsing a file gives; the file may change over time
    var clock: nat
    var theoryCache: map<Path, seq<Transition>>
    var stateMap: map<StateId, ToplevelState>
    var initCache: map<CacheKey, StateId>
    var initCacheKeys: map<StateId, CacheKey>
    var closed: bool                                  // the prover process is gone
    ghost var negative: set<Path>                     // theories for which a checkpoint at a negative line was stored

    /** No checkpoint dangles: each leads to a live state that knows it is a checkpoint for this key. The
        maps are not inverse to each other, for a key that is stored again keeps its older ids. */
    ghost predicate CheckpointsLive()
      reads this
    {
      && (forall key :: key in initCache ==>
            initCache[key] in initCacheKeys && initCacheKeys[initCache[key]] == key)
      && (forall id :: id in initCacheKeys ==> id in stateMap)
    }

    /** For these theories a replay may start at any checkpoint: positions are in order, and either no
        negative line was ever a checkpoint or every command has a position. */
    ghost predicate Replayable(path: Path)
      requires path in theoryCache
      reads this
    {
      && Ordered(theoryCache[path])
      && (path !in negative || forall t :: t in theoryCache[path] ==> t.line > 0)
    }

    /** A checkpoint holds the state that the commands up to its line lead to. */
    ghost predicate IsCheckpoint(key: CacheKey, state: ToplevelState)
      reads this
    {
      MayStore(key, state) && (key.line < 0 ==> key.path in negative)
    }

    ghost predicate MayStore(key: CacheKey, state: ToplevelState)
      reads this
    {
      && key.path in theoryCache
      && (Replayable(key.path) ==>
            isabelle.Effects(Between(theoryCache[key.path], 0, key.line), isabelle.initial) == Some(state))
    }

    ghost predicate Valid()
      reads this
    {
      && CheckpointsLive()
      && (forall key :: key in initCache ==> IsCheckpoint(key, stateMap[initCache[key]]))
    }

    constructor (isabelle: Isabelle, normalize: string -> string, readTheory: (nat, Path) -> seq<Transition>)
      ensures Valid() && stateMap == map[] && theoryCache == map[] && initCache == map[]
      ensures negative == {} && !closed
      ensures this.isabelle == isabelle && this.normalize == normalize && this.readTheory == readTheory
    {
      this.isabelle, this.normalize, this.readTheory := isabelle, normalize, readTheory;
      clock, theoryCache, stateMap, initCache, initCacheKeys, negative := 0, map[], map[], map[], map[], {};
      closed := false;
    }

    /** A theory is parsed once; later calls see what was parsed then. */
    method LoadTheory(path: Path) returns (commandCount: nat)
      requires Valid()
      modifies this`theoryCache, this`clock
      ensures Valid() && path in theoryCache && commandCount == |theoryCache[path]|
      ensures theoryCache == if path in old(theoryCache) then old(theoryCache)
                             else old(theoryCache)[path := readTheory(old(clock), path)]
    {
      if path !in theoryCache {
        theoryCache := theoryCache[path := readTheory(clock, path)];
        clock := clock + 1;
      }
      commandCount := |theoryCache[path]|;
    }

    /** State ids are never used twice. */
    method StoreStateLocal(stateId: StateId, state: ToplevelState, cacheKey: Option<CacheKey>)
      requires Valid() && stateId !in stateMap
      requires cacheKey.Some? ==> MayStore(cacheKey.value, state)
      modifies this`stateMap, this`initCache, this`initCacheKeys, this`negative
      ensures Valid()
      ensures stateMap == old(stateMap)[stateId := state]
      ensures initCache == if cacheKey.Some? then old(initCache)[cacheKey.value := stateId] else old(initCache)
      ensures initCacheKeys == if cacheKey.Some? then old(initCacheKeys)[stateId := cacheKey.value]
                               else old(initCacheKeys)
      ensures negative == if cacheKey.Some? && cacheKey.value.line < 0 then old(negative) + {cacheKey.value.path}
                          else old(negative)
    {
      stateMap := stateMap[stateId := state];
      if cacheKey.Some? {
        StoreCheckpoint(stateId, cacheKey.value);
      }
    }

    method StoreCheckpoint(stateId: StateId, key: CacheKey)
      requires Valid() && stateId in stateMap && stateId !in initCacheKeys && MayStore(key, stateMap[stateId])
      modifies this`initCache, this`initCacheKeys, this`negative
      ensures Valid()
      ensures initCache == old(initCache)[key := stateId] && initCacheKeys == old(initCacheKeys)[stateId := key]
      ensures negative == if key.line < 0 then old(negative) + {key.path} else old(negative)
    {
      initCache := initCache[key := stateId];
      initCacheKeys := initCacheKeys[stateId := key];
      if key.line < 0 {
        negative := negative + {key.path};
      }
    }

    /** Dropping an older id of a key that was stored again evicts the newer checkpoint, which costs time
        but does no harm. */
    method DropStateLocal(stateIds: seq<StateId>)
      requires Valid()
      modifies this`stateMap, this`initCache, this`initCacheKeys
      ensures Valid()
      ensures forall id :: id in stateMap <==> id in old(stateMap) && id !in stateIds
      ensures forall id :: id in stateMap ==> stateMap[id] == old(stateMap)[id]
      ensures forall key :: key in initCache <==>
        key in old(initCache) && forall id :: id in stateIds && id in old(initCacheKeys) ==>
            old(initCacheKeys)[id] != key
      ensures forall key :: key in initCache ==> initCache[key] == old(initCache)[key]
    {
      for i := 0 to |stateIds|
        invariant Valid()
        invariant forall id :: id in stateMap <==> id in old(stateMap) && id !in stateIds[..i]
        invariant forall id :: id in stateMap ==> stateMap[id] == old(stateMap)[id]
        invariant forall id :: id in initCacheKeys <==> id in old(initCacheKeys) && id !in stateIds[..i]
        invariant forall id :: id in initCacheKeys ==> initCacheKeys[id] == old(initCacheKeys)[id]
        invariant forall key :: key in initCache <==>
          key in old(initCache) && forall id :: id in stateIds[..i] && id in old(initCacheKeys) ==>
              old(initCacheKeys)[id] != key
        invariant forall key :: key in initCache ==> initCache[key] == old(initCache)[key]
      {
        assert forall id :: id in stateIds[..i + 1] <==> id in stateIds[..i] || id == stateIds[i];
        DropOne(stateIds[i]);
      }
      assert stateIds[..|stateIds|] == stateIds;
    }

    method DropOne(stateId: StateId)
      requires Valid()
      modifies this`stateMap, this`initCache, this`initCacheKeys
      ensures Valid()
      ensures stateMap == old(stateMap) - {stateId} && initCacheKeys == old(initCacheKeys) - {stateId}
      ensures initCache == if stateId in old(initCacheKeys) then old(initCache) - {old(initCacheKeys)[stateId]}
                           else old(initCache)
    {
      stateMap := stateMap - {stateId};
      if stateId in initCacheKeys {
        var key := initCacheKeys[stateId];
        initCacheKeys := initCacheKeys - {stateId};
        initCache := initCache - {key};
      }
    }

    method Close()
      modifies this`closed
      ensures closed
    {
      closed := true;
    }

    method DropAllStatesLocal()
      requires Valid()
      modifies this`stateMap, this`initCache, this`initCacheKeys
      ensures Valid() && stateMap == map[] && initCache == map[] && initCacheKeys == map[]
    {
      stateMap, initCache, initCacheKeys := map[], map[], map[];
    }

    /** The latest checkpoint of a theory at or before a line. */
    method FindCheckpoint(path: Path, target: int) returns (best: Option<(int, ToplevelState)>)
      requires Valid()
      ensures best.None? ==> forall key :: key in initCache && key.path == path ==> key.line > target
      ensures best.Some? ==>
        && best.value.0 <= target
        && CacheKey(path, best.value.0) in initCache
        && best.value.1 == stateMap[initCache[CacheKey(path, best.value.0)]]
        && (forall key :: key in initCache && key.path == path && key.line <= target ==> key.line <= best.value.0)
    {
      best := None;
      var pending := initCache.Keys;
      while pending != {}
        invariant pending <= initCache.Keys
        invariant best.None? ==> forall key :: key in initCache && key !in pending && key.path == path ==>
            key.line > target
        invariant best.Some? ==>
          && best.value.0 <= target
          && CacheKey(path, best.value.0) in initCache
          && best.value.1 == stateMap[initCache[CacheKey(path, best.value.0)]]
          && (forall key :: key in initCache && key !in pending && key.path == path && key.line <= target ==>
                key.line <= best.value.0)
        decreases pending
      {
        assert (forall key :: key !in pending) ==> pending == {};
        var key :| key in pending;
        if key.path == path && key.line <= target && initCache[key] in stateMap {
          if best.None? || best.value.0 < key.line {
            best := Some((key.line, stateMap[initCache[key]]));
          }
        }
        pending := pending - {key};
      }
    }

    /** The replay loop: the commands after line `start`, from the state there. */
    method ReplayRest(key: CacheKey, start: int, startState: ToplevelState, toExecute: seq<Transition>, timeoutMs: int)
        returns (r: ComputedInitState)
      ensures var result := isabelle.Replay(toExecute, startState, timeoutMs);
              (result.Stuck? ==> result.done < |toExecute|) && r == Answer(key, start, toExecute, result)
    {
      var currentState, lastSuccessState, lastSuccessLine := startState, startState, start;
      for i := 0 to |toExecute|
        invariant currentState == lastSuccessState
        invariant lastSuccessLine == if i == 0 then start else toExecute[i - 1].line
        invariant isabelle.Replay(toExecute[..i], startState, timeoutMs) == Reached(currentState)
      {
        var tr := toExecute[i];
        assert toExecute[..i + 1][..i] == toExecute[..i];
        match isabelle.AsyncExecute([tr], currentState, timeoutMs)
        case Executed(next) =>
          currentState := next;
          lastSuccessState := currentState;
          lastSuccessLine := tr.line;
        case Rejected(timedOut) =>
          isabelle.ReplayJoins(toExecute[..i + 1], toExecute[i + 1..], startState, timeoutMs);
          assert toExecute[..i + 1] + toExecute[i + 1..] == toExecute;
          r := ComputedInitFailure(tr.line, if lastSuccessLine > 0 then Some(lastSuccessState) else None,
                                   ErrorCode(timedOut), []);
          return;
      }
      assert toExecute[..|toExecute|] == toExecute;
      r := ComputedInitSuccess(currentState, key);
    }

    /** The state at the latest checkpoint: without one a replay starts from scratch. */
    ghost function StateAt(key: CacheKey, start: int): ToplevelState
      requires CheckpointsLive()
      reads this
    {
      var checkpoint := CacheKey(key.path, start);
      if start <= key.line && checkpoint in initCache then stateMap[initCache[checkpoint]] else isabelle.initial
    }

    /** Starts at the latest checkpoint at or before the target, `start`, and replays the rest. */
    method ComputeInitState(path: Path, position: Position, timeoutMs: int)
        returns (r: ComputedInitState, ghost start: int)
      requires Valid()
      modifies this`theoryCache, this`clock
      ensures Valid() && path in theoryCache
      ensures theoryCache == if path in old(theoryCache) then old(theoryCache)
                             else old(theoryCache)[path := readTheory(old(clock), path)]
      ensures start == 0 || CacheKey(path, start) in initCache
      ensures match ResolveTargetLine(theoryCache[path], normalize, position)
              case NotFound(_) => r == ComputedInitFailure(0, None, InitNotFound, [])
              case Ambiguous(_, lines) => r == ComputedInitFailure(0, None, InitAmbiguous, lines)
              case Target(line) =>
                var key := CacheKey(path, line);
                && (r.ComputedInitSuccess? ==> r.cacheKey == key && MayStore(key, r.state))
                && LatestIn(initCache, key, start)
                && Answers(isabelle, theoryCache[path], key, start, StateAt(key, start), timeoutMs, r)
                && (Replayable(path) ==> IsAnswer(isabelle, theoryCache[path], r, key, start, timeoutMs))
    {
      start := 0;
      var _ := LoadTheory(path);
      var commands := theoryCache[path];
      var resolved := ResolveTargetLine(commands, normalize, position);
      match resolved
      case NotFound(_) =>
        r := ComputedInitFailure(0, None, InitNotFound, []);
      case Ambiguous(_, lines) =>
        r := ComputedInitFailure(0, None, InitAmbiguous, lines);
      case Target(target) =>
        r, start := ComputeTarget(CacheKey(path, target), timeoutMs);
    }

    /** The source's computeInitState from the checkpoint lookup on. */
    method ComputeTarget(key: CacheKey, timeoutMs: int) returns (r: ComputedInitState, ghost start: int)
      requires Valid() && key.path in theoryCache
      ensures r.ComputedInitSuccess? ==> r.cacheKey == key && MayStore(key, r.state)
      ensures LatestIn(initCache, key, start)
      ensures Answers(isabelle, theoryCache[key.path], key, start, StateAt(key, start), timeoutMs, r)
      ensures Replayable(key.path) ==> IsAnswer(isabelle, theoryCache[key.path], r, key, start, timeoutMs)
    {
      var commands := theoryCache[key.path];
      var best := FindCheckpoint(key.path, key.line);
      var startLine, startState := 0, isabelle.initial;
      if best.Some? {
        startLine, startState := best.value.0, best.value.1;
      }
      start := startLine;
      r := ReplayRest(key, startLine, startState, Between(commands, startLine, key.line), timeoutMs);
      if Replayable(key.path) {
        NothingBetween(commands, 0, 0);
        isabelle.ThroughIsEffects(commands, key.line, |commands|);
        assert commands[..|commands|] == commands;
        CheckpointAnswersAreTrue(isabelle, commands, key, startLine, startState, timeoutMs, r);
        CheckpointAnswersAgree(isabelle, commands, key, startLine, startState, timeoutMs, r);
      }
    }

    /** A tactic runs in the source state; its outcome depends on nothing else. None is a syntax error. */
    method ComputeExecute(sourceStateId: StateId, tactic: string, timeoutMs: int) returns (r: Option<ComputedState>)
      requires sourceStateId in stateMap
      ensures r == ComputedFor(isabelle, stateMap[sourceStateId], tactic, timeoutMs)
      ensures r.None? <==> isabelle.parse(stateMap[sourceStateId], tactic).None?
      ensures r.Some? ==> ComesFrom(isabelle, stateMap[sourceStateId], tactic, timeoutMs, r.value)
    {
      var sourceState := stateMap[sourceStateId];
      var trs := isabelle.parse(sourceState, tactic);
      if trs.None? {
        return None;
      }
      isabelle.AsyncExecuteMeans(trs.value, sourceState, timeoutMs);
      match isabelle.AsyncExecute(trs.value, sourceState, timeoutMs)
      case Executed(newState) =>
        r := Some(ComputedState(newState, if sourceState.proofLevel > 0 && newState.proofLevel == 0 then ProofComplete
                                          else Success));
      case Rejected(timedOut) =>
        r := Some(ComputedState(sourceState, if timedOut then Timeout else Error));
    }

    /** Each tactic of a batch runs in the source state, never in the state of another one. */
    method ComputeExecuteBatch(sourceStateId: StateId, tactics: seq<string>, timeoutMs: int)
        returns (r: Option<seq<ComputedState>>)
      requires sourceStateId in stateMap
      ensures r.Some? ==>
        && |r.value| == |tactics|
        && forall i :: 0 <= i < |tactics| ==>
             ComputedFor(isabelle, stateMap[sourceStateId], tactics[i], timeoutMs) == Some(r.value[i])
      ensures r.Some? ==> forall i :: 0 <= i < |tactics| ==>
        ComesFrom(isabelle, stateMap[sourceStateId], tactics[i], timeoutMs, r.value[i])
      ensures r.None? <==> exists i :: 0 <= i < |tactics| && isabelle.parse(stateMap[sourceStateId], tactics[i]).None?
    {
      var results := [];
      for i := 0 to |tactics|
        invariant |results| == i
        invariant forall j :: 0 <= j < i ==>
          && ComputedFor(isabelle, stateMap[sourceStateId], tactics[j], timeoutMs) == Some(results[j])
          && ComesFrom(isabelle, stateMap[sourceStateId], tactics[j], timeoutMs, results[j])
      {
        var one := ComputeExecute(sourceStateId, tactics[i], timeoutMs);
        if one.None? {
          return None;
        }
        results := results + [one.value];
      }
      r := Some(results);
    }
  }

  /** What running commands in a source state comes to. They succeed with the state that all of them lead to
      if each has an effect and they finish in time, and otherwise leave the source state: because the time
      ran out, or because a command has no effect. */
  ghost predicate Comes(isabelle: Isabelle, source: ToplevelState, trs: seq<Transition>, timeoutMs: int,
                        c: ComputedState)
  {
    var budget := timeoutMs * |trs|;
    match c.status
    case Timeout => c.state == source && isabelle.Stops(trs, source, budget, true)
    case Error => c.state == source && isabelle.Stops(trs, source, budget, false)
    case _ =>
      && isabelle.Effects(trs, source) == Some(c.state) && isabelle.Spent(trs, source) <= budget
      && (c.status.ProofComplete? <==> source.proofLevel > 0 && c.state.proofLevel == 0)
  }

  ghost predicate ComesFrom(isabelle: Isabelle, source: ToplevelState, tactic: string, timeoutMs: int, c: ComputedState)
  {
    var trs := isabelle.parse(source, tactic);
    trs.Some? && Comes(isabelle, source, trs.value, timeoutMs, c)
  }

  /** It comes to one thing only. */
  lemma ComesToOne(isabelle: Isabelle, source: ToplevelState, trs: seq<Transition>, timeoutMs: int, c: ComputedState,
                   d: ComputedState)
    requires Comes(isabelle, source, trs, timeoutMs, c) && Comes(isabelle, source, trs, timeoutMs, d)
    ensures c == d
  {
    isabelle.AsyncExecuteMeans(trs, source, timeoutMs);
  }

  /** What a client sees of an execution, by the prover alone. */
  function ComputedFor(isabelle: Isabelle, source: ToplevelState, tactic: string, timeoutMs: int): Option<ComputedState>
  {
    match isabelle.parse(source, tactic)
    case None => None
    case Some(trs) =>
      var outcome := isabelle.AsyncExecute(trs, source, timeoutMs);
      Some(ComputedState(After(source, outcome), Result(0, source, outcome).status))
  }
}
