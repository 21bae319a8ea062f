/** localization/repl.py: the incremental, REPL-backed localizer, and the client it talks to. */
module BlockLocalizer {
  import opened RepairModel
  import opened ProverStates
  import opened WorkingSnapshot

  datatype CommandKind =
    | TheoryHeader | By | ProofStart | Qed | Lemma | Theorem | Have | Show | Hence | Thus
    | OtherCommand(name: string)

  datatype TheoryCommand = TheoryCommand(text: string, kind: CommandKind, line: int)

  /** The REPL server as its client sees it: a deterministic prover, fresh ids, and states that may be
      lost between two requests. `initSucceeds` and `forgotten` are arbitrary. */
  class ReplClient {
    const exec: (ToplevelState, string) -> ExecOutcome
    const headerState: ToplevelState
    const initSucceeds: nat -> bool
    const forgotten: nat -> set<StateId>
    var live: map<StateId, ToplevelState>
    ghost var issued: map<StateId, ToplevelState>
    var nextId: nat
    var requests: nat
    var executions: nat
    ghost var initFailures: nat               // how many header states were asked for in vain

    ghost predicate Valid()
      reads this
    {
      && (forall id :: id in live ==> id in issued && live[id] == issued[id])
      && (forall id :: id in issued ==> id < nextId)
    }

    constructor (exec: (ToplevelState, string) -> ExecOutcome, headerState: ToplevelState, initSucceeds: nat -> bool,
                 forgotten: nat -> set<StateId>)
      ensures Valid() && live == map[]
      ensures this.exec == exec && this.headerState == headerState
      ensures this.initSucceeds == initSucceeds && this.forgotten == forgotten
    {
      this.exec, this.headerState := exec, headerState;
      this.initSucceeds, this.forgotten := initSucceeds, forgotten;
      live, issued := map[], map[];
      nextId, requests, executions, initFailures := 0, 0, 0, 0;
    }

    /** Every id keeps the state it was issued for. */
    twostate predicate Grows()
      reads this
    {
      forall id :: id in old(issued) ==> id in issued && issued[id] == old(issued)[id]
    }

    /** No state got lost or replaced. */
    twostate predicate KeepsLive()
      reads this
    {
      forall id :: id in old(live) ==> id in live && live[id] == old(live)[id]
    }

    /** A header state was asked for in the meantime, and could not be had. */
    twostate predicate InitFailed()
      reads this
    {
      initFailures > old(initFailures)
    }

    method Register(state: ToplevelState) returns (id: StateId)
      requires Valid()
      modifies this`live, this`issued, this`nextId
      ensures Valid() && Grows()
      ensures id !in old(issued) && live == old(live)[id := state] && issued == old(issued)[id := state]
    {
      id := nextId;
      nextId := nextId + 1;
      live := live[id := state];
      issued := issued[id := state];
    }

    method InitAfterHeader() returns (r: Option<StateResult>)
      requires Valid()
      modifies this`live, this`issued, this`nextId, this`requests, this`initFailures
      ensures Valid() && Grows()
      ensures requests == old(requests) + 1
      ensures r.Some? <==> initSucceeds(old(requests))
      ensures initFailures == old(initFailures) + if r.None? then 1 else 0
      ensures r.Some? ==>
        && r.value.stateId in live && live[r.value.stateId] == headerState
        && r.value.mode == headerState.mode && r.value.proofLevel == headerState.proofLevel
    {
      requests := requests + 1;
      if !initSucceeds(requests - 1) {
        initFailures := initFailures + 1;
        return None;
      }
      var id := Register(headerState);
      return Some(StateResult(id, Success, headerState.mode, headerState.proofLevel));
    }

    /** Always answers with a fresh id; a failed execution yields the source state under it. */
    method Execute(source: StateId, tactic: string) returns (r: StateResult)
      requires Valid() && source in live
      modifies this`live, this`issued, this`nextId, this`executions
      ensures Valid() && Grows()
      ensures executions == old(executions) + 1
      ensures var outcome := exec(old(live)[source], tactic);
              && r.stateId !in old(issued) && r == Result(r.stateId, old(live)[source], outcome)
              && live == old(live)[r.stateId := After(old(live)[source], outcome)]
    {
      executions := executions + 1;
      var before := live[source];
      var outcome := exec(before, tactic);
      var id := Register(After(before, outcome));
      r := Result(id, before, outcome);
    }

    /** None is the error the server raises for a state it no longer has. */
    method GetStateInfo(id: StateId) returns (r: Option<ToplevelState>)
      requires Valid()
      modifies this`live, this`requests
      ensures Valid() && issued == old(issued)
      ensures requests == old(requests) + 1 && live == old(live) - forgotten(old(requests))
      ensures if id in live then r == Some(issued[id]) else r == None
    {
      live := live - forgotten(requests);
      requests := requests + 1;
      r := if id in live then Some(live[id]) else None;
    }
  }

  /** No two commands from `start` on share a line. */
  ghost predicate DistinctLinesFrom(commands: seq<TheoryCommand>, start: nat)
    decreases |commands| - start
  {
    start >= |commands| ||
      ((forall j :: start < j < |commands| ==> commands[j].line != commands[start].line)
       && DistinctLinesFrom(commands, start + 1))
  }

  lemma {:induction false} DistinctLinesAt(commands: seq<TheoryCommand>, start: nat, i: int, j: int)
    requires start <= i < j < |commands| && DistinctLinesFrom(commands, start)
    ensures commands[i].line != commands[j].line
    decreases i - start
  {
    if start < i { DistinctLinesAt(commands, start + 1, i, j); }
  }

  // ---------------------------------------------------------------- from-scratch replay

  /** The text that stands for a command once the patches are in. An empty patch does not count. */
  function EffectiveText(entries: seq<PatchEntry>, command: TheoryCommand): string {
    match LastFor(entries, command.line)
    case Some(text) => if text != "" then text else command.text
    case None => command.text
  }

  /** A patched theory under a prover: all that a replay depends on. */
  datatype PatchedTheory = PatchedTheory(
    exec: (ToplevelState, string) -> ExecOutcome,
    headerState: ToplevelState,
    commands: seq<TheoryCommand>,
    header: int,
    entries: seq<PatchEntry>)
  {
    /** Replay from the header, one command after the other, up to and including `upto`. */
    ghost function Replay(upto: int): Option<ToplevelState>
      requires -1 <= header && upto < |commands|
      decreases upto - header
    {
      if upto <= header then Some(headerState)
      else
        match Replay(upto - 1)
        case None => None
        case Some(state) =>
          match exec(state, EffectiveText(entries, commands[upto]))
          case Executed(next) => Some(next)
          case Rejected(_) => None
    }

    /** The first command a from-scratch replay cannot execute, or the number of commands. */
    ghost function FirstFailure(start: int): (i: int)
      requires -1 <= header < start <= |commands|
      ensures start <= i <= |commands|
      ensures forall k :: start <= k < i ==> Replay(k).Some?
      ensures i < |commands| ==> Replay(i).None?
      decreases |commands| - start
    {
      if start == |commands| || Replay(start).None? then start else FirstFailure(start + 1)
    }

    lemma FirstFailureFails(start: int, i: int)
      requires -1 <= header < start <= i < |commands| && Replay(i).Some?
      ensures FirstFailure(start) != i
    {
    }

    /** Once a replay has failed it stays failed. */
    lemma {:induction false} FailureLasts(i: int, j: int)
      requires -1 <= header < i <= j < |commands|
      requires Replay(i).None?
      ensures Replay(j).None?
      decreases j
    {
      if i < j { FailureLasts(i, j - 1); }
    }

    /** Command `i` fails right after a successful replay of everything before it, or `i` is past
        the end and everything succeeds. */
    ghost predicate FailsAt(i: int)
      requires -1 <= header < i <= |commands|
    {
      Replay(i - 1).Some? && (i < |commands| ==> Replay(i).None?)
    }

    /** Only the first failure of a from-scratch replay fails that way. */
    lemma FailsAtFirstFailureOnly(i: int)
      requires -1 <= header < i <= |commands|
      ensures FailsAt(i) <==> FirstFailure(header + 1) == i
    {
      var f := FirstFailure(header + 1);
      if FailsAt(i) && f < i { FailureLasts(f, i - 1); }
      assert f > header + 1 ==> Replay(f - 1).Some?;
    }

    /** A patch on a later line leaves the replay alone. */
    lemma {:induction false} LaterPatchKeepsReplay(entry: PatchEntry, upto: int)
      requires -1 <= header && upto < |commands|
      requires forall k :: header < k <= upto ==> commands[k].line != entry.line
      ensures this.(entries := entries + [entry]).Replay(upto) == Replay(upto)
      decreases upto - header
    {
      if upto > header {
        LaterPatchKeepsReplay(entry, upto - 1);
        assert (entries + [entry])[..|entries|] == entries;
      }
    }
  }

  /** How far a theory can be replayed once a text that works right after the cursor has been patched in
      for the command there. */
  lemma {:induction false} RepairMovesOn(theory: PatchedTheory, cursor: int, state: ToplevelState, entry: PatchEntry)
    requires 0 <= theory.header <= cursor && cursor + 1 < |theory.commands|
    requires DistinctLinesFrom(theory.commands, theory.header + 1)
    requires theory.Replay(cursor) == Some(state)
    requires entry.line == theory.commands[cursor + 1].line && entry.text != ""
    requires theory.exec(state, entry.text).Executed?
    ensures var patched := theory.(entries := theory.entries + [entry]);
            && patched.Replay(cursor + 1) == Some(theory.exec(state, entry.text).state)
            && patched.FirstFailure(theory.header + 1) > cursor + 1
  {
    forall k | theory.header < k <= cursor
      ensures theory.commands[k].line != entry.line
    {
      DistinctLinesAt(theory.commands, theory.header + 1, k, cursor + 1);
    }
    theory.LaterPatchKeepsReplay(entry, cursor);
    var patched := theory.(entries := theory.entries + [entry]);
    assert LastFor(patched.entries, entry.line) == Some(entry.text);
    var f := patched.FirstFailure(theory.header + 1);
    if f <= cursor + 1 {
      patched.FailureLasts(f, cursor + 1);
    }
  }

  /** On a patched line the text on display is the text that is executed exactly when the latest patch there
      is not empty: an empty patch blanks the line, but its command is still executed. */
  lemma RenderedIsExecuted(lines: seq<string>, original: seq<string>, entries: seq<PatchEntry>, command: TheoryCommand)
    requires IsRendered(lines, original, entries) && 0 < command.line <= |original|
    requires LastFor(entries, command.line).Some? && command.text != ""
    ensures lines[command.line - 1] == EffectiveText(entries, command) <==> LastFor(entries, command.line) != Some("")
  {
  }

  /** Such a patch exists for every line of every theory. */
  lemma EmptyPatchIsNotExecuted(original: seq<string>, command: TheoryCommand) returns (entry: PatchEntry)
    requires 0 < command.line <= |original| && command.text != ""
    ensures entry.line == command.line
    ensures Reapply(original, [entry])[command.line - 1] == "" && EffectiveText([entry], command) == command.text
  {
    entry := PatchEntry(1, 1, command.line, CommittedPlaceholder, "", command.text, None);
    ReapplyReproducesRendered(original, [entry]);
    assert LastFor([entry], command.line) == Some("");
  }

  /** A prover that wants the commands of a theory one by one, and `repair` in place of command `c`. */
  function Picky(commands: seq<TheoryCommand>, header: int, c: int, repair: string)
    : (ToplevelState, string) -> ExecOutcome
  {
    (s: ToplevelState, text: string) =>
      var i := header + 1 + s.context;
      if 0 <= i < |commands| && text == (if i == c then repair else commands[i].text)
      then Executed(s.(context := s.context + 1)) else Rejected(false)
  }

  /** Under that prover a replay counts commands, and goes through as long as no patch interferes. */
  lemma {:induction false} PickyReplay(t: PatchedTheory, c: int, repair: string, upto: int)
    requires 0 <= t.header <= upto < |t.commands| && t.headerState.context == 0
    requires t.exec == Picky(t.commands, t.header, c, repair)
    ensures t.Replay(upto).Some? ==> t.Replay(upto).value.context == upto - t.header
    ensures t.entries == [] && upto < c ==> t.Replay(upto).Some?
    decreases upto
  {
    if upto > t.header {
      PickyReplay(t, c, repair, upto - 1);
    }
  }

  /** Distinct lines are exactly what a replay needs: in any theory with two commands on one line, some
      prover rejects the second, accepts a repair for it on the spot, and then cannot replay the patched
      theory as far as the first, which the repair replaces as well. */
  lemma {:induction false} SharedLineBreaksReplay(commands: seq<TheoryCommand>, header: int, k: int, c: int)
      returns (t: PatchedTheory, entry: PatchEntry)
    requires 0 <= header < k < c < |commands| && commands[k].line == commands[c].line
    ensures t.commands == commands && t.header == header && t.entries == []
    ensures entry.line == commands[c].line && entry.text != ""
    ensures t.FailsAt(c) && t.exec(t.Replay(c - 1).value, entry.text).Executed?
    ensures t.(entries := [entry]).Replay(k).None?
  {
    var repair := commands[c].text + commands[k].text + "x";
    assert |repair| > |commands[c].text| && |repair| > |commands[k].text|;
    t := PatchedTheory(Picky(commands, header, c, repair), ToplevelState(Theory, 0, 0), commands, header, []);
    entry := PatchEntry(1, 1, commands[c].line, Repair, repair, commands[c].text, None);
    PickyReplay(t, c, repair, c - 1);
    PickyReplay(t.(entries := [entry]), c, repair, k - 1);
    assert LastFor([entry], commands[k].line) == Some(repair);
  }

  // ---------------------------------------------------------------- the localizer

  /** The index of the first theory command, or -1. */
  ghost predicate IsHeaderIndex(commands: seq<TheoryCommand>, i: int) {
    && -1 <= i < |commands|
    && (i >= 0 ==> commands[i].kind.TheoryHeader?)
    && (forall k :: 0 <= k < (if i == -1 then |commands| else i) ==> !commands[k].kind.TheoryHeader?)
  }

  function ContractForBlockKind(blockKind: BlockKind): Option<BlockContract> {
    match blockKind
    case TerminalProofStepBlock => Some(GoalClosed)
    case WholeProofBodyBlock => Some(SubproofClosed)
    case TheoremShellBlock => Some(TheoremClosed)
    case TopLevelCommandBlock => Some(ContextUpdated)
    case OtherBlock(_) => None
  }

  const DEFAULT_FALLBACKS := [
    RepairBlockCandidate(TerminalProofStepBlock, GoalClosed, Primary),
    RepairBlockCandidate(WholeProofBodyBlock, SubproofClosed, Fallback),
    RepairBlockCandidate(TheoremShellBlock, TheoremClosed, Fallback)]

  const DEFAULT_CHAIN := [TerminalProofStepBlock, WholeProofBodyBlock, TheoremShellBlock]

  /** A proof body fails where a proof is to be given or ended; a statement fails where one is made, and wherever
      else a proof is going on. */
  function ClassifyFailure(commandKind: CommandKind, entryMode: Option<StateMode>): (kind: FailureKind)
    ensures kind.ProofBodyFailure? <==> entryMode == Some(Proof) && commandKind in {By, ProofStart, Qed}
    ensures kind.NonProofCommandFailure? <==>
      entryMode != Some(Proof) && commandKind !in {Lemma, Theorem, Have, Show, Hence, Thus}
    ensures !kind.TheoryLoadOrHeaderFailure?
  {
    if entryMode == Some(Proof) && commandKind in {By, ProofStart, Qed} then ProofBodyFailure
    else if entryMode == Some(Proof) then StatementFailure
    else if commandKind in {Lemma, Theorem, Have, Show, Hence, Thus} then StatementFailure
    else NonProofCommandFailure
  }

  method FirstTheoryCommand(commands: seq<TheoryCommand>) returns (i: int)
    ensures IsHeaderIndex(commands, i)
  {
    for k := 0 to |commands|
      invariant forall j :: 0 <= j < k ==> !commands[j].kind.TheoryHeader?
    {
      if commands[k].kind.TheoryHeader? {
        return k;
      }
    }
    return -1;
  }

  class ReplBlockLocalizer {
    const client: ReplClient
    const theoryCommands: seq<TheoryCommand>  // what the server answers to list_theory_commands
    ghost const header: int
    var commands: Option<seq<TheoryCommand>>
    var headerIndex: int
    var nextTaskNumber: nat
    ghost var history: seq<LocalizedTask>     // every task it ever reported

    constructor (client: ReplClient, theoryCommands: seq<TheoryCommand>)
      ensures this.client == client && this.theoryCommands == theoryCommands && commands == None
      ensures IsHeaderIndex(theoryCommands, header) && history == []
    {
      this.client, this.theoryCommands := client, theoryCommands;
      commands, headerIndex, nextTaskNumber := None, -1, 0;
      history := [];
      ghost var h := FirstTheoryCommand(theoryCommands);
      header := h;
    }

    /** The theory with all patches of `snapshot` in, as a from-scratch replay would see it. */
    ghost function Patched(snapshot: WorkingTheorySnapshot): PatchedTheory
      reads snapshot
    {
      PatchedTheory(client.exec, client.headerState, theoryCommands, header, snapshot.replacements)
    }

    /** No two commands after the header share a line. */
    ghost predicate DistinctLines() {
      0 <= header < |theoryCommands| && DistinctLinesFrom(theoryCommands, header + 1)
    }

    /** The anchor is what a replay of the patched theory up to the cursor yields. */
    ghost predicate AnchorIsReplay(snapshot: WorkingTheorySnapshot)
      reads client, snapshot
    {
      snapshot.anchor.Some? ==>
        && 0 <= header <= snapshot.cursor < |theoryCommands|
        && snapshot.anchor.value in client.issued
        && (DistinctLines() ==>
              Patched(snapshot).Replay(snapshot.cursor) == Some(client.issued[snapshot.anchor.value]))
    }

    /** What the localizer reported was so: a command of the theory fails in the state that the task names,
        with the text that it quotes, and is classified by that state. */
    ghost predicate HistoryIsTrue()
      reads this, client
    {
      forall task :: task in history ==> IsTrueReport(task)
    }

    ghost predicate IsTrueReport(task: LocalizedTask)
      reads client
    {
      && task.sourceStateId.Some? && task.sourceStateId.value in client.issued
      && FailsIn(task, client.issued[task.sourceStateId.value])
      && exists k :: 0 <= header < k < |theoryCommands| && IsAbout(task, theoryCommands[k])
    }

    predicate FailsIn(task: LocalizedTask, state: ToplevelState) {
      && client.exec(state, task.blockText).Rejected?
      && task.entryMode == Some(state.mode) && task.entryProofLevel == state.proofLevel
      && task.fallbackCandidates == DEFAULT_FALLBACKS
    }

    predicate IsAbout(task: LocalizedTask, command: TheoryCommand) {
      task.line == command.line && task.failureKind == ClassifyFailure(command.kind, task.entryMode)
    }

    ghost predicate Consistent(snapshot: WorkingTheorySnapshot)
      reads this, client, snapshot
    {
      && client.Valid()
      && IsHeaderIndex(theoryCommands, header)
      && (commands.Some? ==> commands.value == theoryCommands && headerIndex == header)
      && (snapshot.anchor.None? ==> snapshot.cursor == -1)
      && AnchorIsReplay(snapshot) && HistoryIsTrue()
      && (snapshot.anchor.Some? ==>
            && commands.Some?
            && snapshot.mode == Some(client.issued[snapshot.anchor.value].mode)
            && snapshot.proofLevel == Some(client.issued[snapshot.anchor.value].proofLevel))
    }

    /** Patching the command after the cursor keeps the anchor right. */
    lemma PatchKeepsAnchor(theory: PatchedTheory, snapshot: WorkingTheorySnapshot, entry: PatchEntry)
      requires theory == Patched(snapshot).(entries := theory.entries)
      requires snapshot.replacements == theory.entries + [entry]
      requires snapshot.anchor.Some? && 0 <= header <= snapshot.cursor && snapshot.cursor + 1 < |theoryCommands|
      requires theoryCommands[snapshot.cursor + 1].line == entry.line && snapshot.anchor.value in client.issued
      requires DistinctLines() ==> theory.Replay(snapshot.cursor) == Some(client.issued[snapshot.anchor.value])
      ensures AnchorIsReplay(snapshot)
    {
      if DistinctLines() {
        forall k | header < k <= snapshot.cursor
          ensures theoryCommands[k].line != entry.line
        {
          DistinctLinesAt(theoryCommands, header + 1, k, snapshot.cursor + 1);
        }
        theory.LaterPatchKeepsReplay(entry, snapshot.cursor);
      }
    }

    /** The command after the cursor is executable by now: its patch worked. */
    ghost predicate Repaired(snapshot: WorkingTheorySnapshot)
      reads snapshot
    {
      && snapshot.anchor.Some? && 0 <= header <= snapshot.cursor && snapshot.cursor + 1 < |theoryCommands|
      && Patched(snapshot).Replay(snapshot.cursor + 1).Some?
    }

    /** The command after the cursor is the one `task` is about. */
    ghost predicate Targets(snapshot: WorkingTheorySnapshot, task: LocalizedTask)
      reads snapshot
    {
      && snapshot.anchor.Some?
      && 0 <= header <= snapshot.cursor
      && snapshot.cursor + 1 < |theoryCommands|
      && theoryCommands[snapshot.cursor + 1].line == task.line
    }

    /** The task tells where the command after the cursor fails, with which text, and how to go about it. */
    ghost predicate Describes(snapshot: WorkingTheorySnapshot, task: LocalizedTask)
      requires Targets(snapshot, task)
      reads snapshot
    {
      var command := theoryCommands[snapshot.cursor + 1];
      && task.sourceStateId == snapshot.anchor && task.entryMode == snapshot.mode
      && snapshot.proofLevel == Some(task.entryProofLevel)
      && task.blockText == EffectiveText(snapshot.replacements, command)
      && task.failureKind == ClassifyFailure(command.kind, snapshot.mode)
      && task.blockKind.TerminalProofStepBlock? && task.fallbackCandidates == DEFAULT_FALLBACKS
      && task.fallbackChain == DEFAULT_CHAIN
      && task.driftReason == snapshot.lastDrift
    }

    /** The command after the cursor, as patched now, fails from the anchor. */
    ghost predicate StillFails(snapshot: WorkingTheorySnapshot)
      requires AnchorIsReplay(snapshot) && snapshot.anchor.Some? && snapshot.cursor + 1 < |theoryCommands|
      reads client, snapshot
    {
      client.exec(client.issued[snapshot.anchor.value],
                  EffectiveText(snapshot.replacements, theoryCommands[snapshot.cursor + 1])).Rejected?
    }

    /** In a consistent state the cursor marks the first failure as soon as the command after it is
        known to fail, or there is none. */
    lemma CursorIsAtFirstFailure(snapshot: WorkingTheorySnapshot)
      requires Consistent(snapshot) && snapshot.anchor.Some? && DistinctLines()
      requires snapshot.cursor + 1 == |theoryCommands| || StillFails(snapshot)
      ensures Patched(snapshot).FailsAt(snapshot.cursor + 1)
    {
    }

    /** The command after the cursor is repaired exactly if its text, as patched now, works in the anchor state;
        otherwise it is still the first failure. */
    lemma RepairedIsExecutable(snapshot: WorkingTheorySnapshot)
      requires Consistent(snapshot) && snapshot.anchor.Some? && DistinctLines()
      requires snapshot.cursor + 1 < |theoryCommands|
      ensures Repaired(snapshot) <==> !StillFails(snapshot)
      ensures !Repaired(snapshot) ==> Patched(snapshot).FirstFailure(header + 1) == snapshot.cursor + 1
    {
      if StillFails(snapshot) {
        CursorIsAtFirstFailure(snapshot);
        Patched(snapshot).FailsAtFirstFailureOnly(snapshot.cursor + 1);
      }
    }

    /** An anchor can be had: the old one is still there, or the header state can be had, and the commands up
        to the cursor can be replayed from it. */
    ghost predicate CanAnchor(snapshot: WorkingTheorySnapshot)
      reads client, snapshot
    {
      if snapshot.anchor.None? then client.initSucceeds(client.requests)
      else
        || snapshot.anchor.value in client.live - client.forgotten(client.requests)
        || (&& client.initSucceeds(client.requests + 1)
            && -1 <= header && snapshot.cursor < |theoryCommands| && Patched(snapshot).Replay(snapshot.cursor).Some?)
    }

    /** What the failure digest says about drift once an anchor has been looked for: nothing after a bootstrap,
        that the anchor state was lost if it was, and otherwise what it said before. */
    ghost function DriftToReport(snapshot: WorkingTheorySnapshot): Option<DriftReason>
      reads client, snapshot
    {
      if snapshot.anchor.None? then None
      else if snapshot.anchor.value in client.live - client.forgotten(client.requests) then snapshot.lastDrift
      else Some(AnchorStateUnavailable)
    }

    /** The task is new, and tells what is wrong with the command after the cursor. */
    ghost predicate Reports(snapshot: WorkingTheorySnapshot, task: LocalizedTask, before: seq<LocalizedTask>)
      requires AnchorIsReplay(snapshot)
      reads this, client, snapshot
    {
      && Targets(snapshot, task) && StillFails(snapshot) && Describes(snapshot, task)
      && snapshot.anchor.value in client.live
      && task.taskId == nextTaskNumber && history == before + [task]
    }

    /** The next failing command of the patched theory. Incremental localization refines a replay from scratch:
        if an anchor can be had at all, a task is reported iff that replay fails somewhere, and it is the first
        failure; without a task the whole patched theory replays. Lost states make no difference. */
    method NextTask(snapshot: WorkingTheorySnapshot) returns (task: Option<LocalizedTask>)
      requires Consistent(snapshot)
      requires theoryCommands != [] ==> header >= 0
      modifies this, client
      modifies snapshot`anchor, snapshot`cursor, snapshot`mode, snapshot`proofLevel, snapshot`lastDrift
      ensures Consistent(snapshot) && client.Grows() && client.requests >= old(client.requests)
      ensures client.initFailures >= old(client.initFailures)
      ensures snapshot.cursor >= old(snapshot.cursor)
      ensures theoryCommands != [] ==> snapshot.lastDrift == old(DriftToReport(snapshot))
      ensures if task.Some? then
                && Reports(snapshot, task.value, old(history)) && nextTaskNumber == old(nextTaskNumber) + 1
                && theoryCommands != [] && old(CanAnchor(snapshot))
              else history == old(history) && nextTaskNumber == old(nextTaskNumber)
      ensures theoryCommands != [] && old(CanAnchor(snapshot)) ==>
        snapshot.anchor.Some? && (task.None? <==> snapshot.cursor + 1 == |theoryCommands|)
      ensures DistinctLines() && old(CanAnchor(snapshot)) ==>
        var f := Patched(snapshot).FirstFailure(header + 1);
        snapshot.cursor + 1 == f && (task.Some? <==> f < |theoryCommands|)
      ensures DistinctLines() && !old(CanAnchor(snapshot)) ==> client.InitFailed()
    {
      EnsureCommandsLoaded();
      if theoryCommands == [] {
        return None;
      }
      var anchored := EnsureAnchor(snapshot);
      if !anchored {
        return None;
      }
      task := ScanToFirstFailure(snapshot);
    }

    /** What the loop stops at is the first failure of the whole patched theory. */
    method ScanToFirstFailure(snapshot: WorkingTheorySnapshot) returns (task: Option<LocalizedTask>)
      requires Consistent(snapshot) && theoryCommands != []
      requires snapshot.anchor.Some? && snapshot.anchor.value in client.live
      modifies this`nextTaskNumber, this`history, client
      modifies snapshot`anchor, snapshot`cursor, snapshot`mode, snapshot`proofLevel
      ensures Consistent(snapshot) && client.Grows() && snapshot.anchor.Some?
      ensures snapshot.cursor >= old(snapshot.cursor)
      ensures client.requests == old(client.requests) && client.initFailures == old(client.initFailures)
      ensures task.None? <==> snapshot.cursor + 1 == |theoryCommands|
      ensures if task.Some? then
                Reports(snapshot, task.value, old(history)) && nextTaskNumber == old(nextTaskNumber) + 1
              else
                history == old(history) && nextTaskNumber == old(nextTaskNumber)
      ensures DistinctLines() ==> snapshot.cursor + 1 == Patched(snapshot).FirstFailure(header + 1)
    {
      task := ScanFromCursor(snapshot);
      if DistinctLines() {
        CursorIsAtFirstFailure(snapshot);
        Patched(snapshot).FailsAtFirstFailureOnly(snapshot.cursor + 1);
      }
    }

    /** The loop of the source's next_task: execute the effective commands from the anchor on. */
    method ScanFromCursor(snapshot: WorkingTheorySnapshot) returns (task: Option<LocalizedTask>)
      requires Consistent(snapshot) && theoryCommands != []
      requires snapshot.anchor.Some? && snapshot.anchor.value in client.live
      modifies this`nextTaskNumber, this`history, client
      modifies snapshot`anchor, snapshot`cursor, snapshot`mode, snapshot`proofLevel
      ensures Consistent(snapshot) && client.Grows() && snapshot.anchor.Some?
      ensures snapshot.cursor >= old(snapshot.cursor)
      ensures client.requests == old(client.requests) && client.initFailures == old(client.initFailures)
      ensures task.None? <==> snapshot.cursor + 1 == |theoryCommands|
      ensures if task.Some? then
                Reports(snapshot, task.value, old(history)) && nextTaskNumber == old(nextTaskNumber) + 1
              else
                history == old(history) && nextTaskNumber == old(nextTaskNumber)
    {
      var index := if snapshot.cursor >= headerIndex then snapshot.cursor + 1 else headerIndex + 1;
      while index < |theoryCommands|
        modifies this`nextTaskNumber, this`history, client
        modifies snapshot`anchor, snapshot`cursor, snapshot`mode, snapshot`proofLevel
        invariant nextTaskNumber == old(nextTaskNumber) && history == old(history)
        invariant client.requests == old(client.requests) && client.initFailures == old(client.initFailures)
        invariant snapshot.cursor + 1 == index <= |theoryCommands| && snapshot.cursor >= old(snapshot.cursor)
        invariant Consistent(snapshot) && client.Grows()
        invariant snapshot.anchor.Some? && snapshot.anchor.value in client.live
      {
        var success, text := TryCommand(snapshot, index);
        if success {
          index := index + 1;
        } else {
          var report := ReportFailure(snapshot, text);
          return Some(report);
        }
      }
      return None;
    }

    /** The task for the command after the cursor, which has just failed. */
    method ReportFailure(snapshot: WorkingTheorySnapshot, text: string) returns (task: LocalizedTask)
      requires Consistent(snapshot) && snapshot.anchor.Some? && snapshot.anchor.value in client.live
      requires snapshot.cursor + 1 < |theoryCommands| && StillFails(snapshot)
      requires text == EffectiveText(snapshot.replacements, theoryCommands[snapshot.cursor + 1])
      modifies this`nextTaskNumber, this`history
      ensures Consistent(snapshot)
      ensures Reports(snapshot, task, old(history)) && nextTaskNumber == old(nextTaskNumber) + 1
    {
      var command := theoryCommands[snapshot.cursor + 1];
      nextTaskNumber := nextTaskNumber + 1;
      task := LocalizedTask(nextTaskNumber, TerminalProofStepBlock, ClassifyFailure(command.kind, snapshot.mode), text,
                            snapshot.mode, if snapshot.proofLevel.Some? then snapshot.proofLevel.value else 0,
                            snapshot.anchor, command.line, snapshot.lastDrift, DEFAULT_CHAIN, DEFAULT_FALLBACKS);
      assert IsAbout(task, command);
      history := history + [task];
    }

    /** One round of that loop: execute a command as patched, and move the anchor past it on success. */
    method TryCommand(snapshot: WorkingTheorySnapshot, index: int) returns (success: bool, text: string)
      requires Consistent(snapshot) && snapshot.anchor.Some? && snapshot.anchor.value in client.live
      requires index == snapshot.cursor + 1 < |theoryCommands|
      modifies client, snapshot`anchor, snapshot`cursor, snapshot`mode, snapshot`proofLevel
      ensures Consistent(snapshot) && client.Grows()
      ensures client.requests == old(client.requests) && client.initFailures == old(client.initFailures)
      ensures snapshot.anchor.Some? && snapshot.anchor.value in client.live
      ensures text == EffectiveText(snapshot.replacements, theoryCommands[index])
      ensures success ==> snapshot.cursor == index
      ensures !success ==> snapshot.cursor == old(snapshot.cursor) && snapshot.anchor == old(snapshot.anchor)
                           && StillFails(snapshot)
    {
      text := PatchedText(snapshot, theoryCommands[index]);
      var execution := client.Execute(snapshot.anchor.value, text);
      success := execution.IsSuccess();
      if success {
        snapshot.SetAnchor(execution.stateId, index, execution.mode, execution.proofLevel);
      }
    }

    method PatchedText(snapshot: WorkingTheorySnapshot, command: TheoryCommand) returns (text: string)
      ensures text == EffectiveText(snapshot.replacements, command)
    {
      var replacement := snapshot.ReplacementForLine(command.line);
      text := if replacement.Some? && replacement.value != "" then replacement.value else command.text;
    }

    method EnsureCommandsLoaded()
      requires IsHeaderIndex(theoryCommands, header)
      modifies this`commands, this`headerIndex
      ensures old(commands).None? ==> commands == Some(theoryCommands) && headerIndex == header
      ensures old(commands).Some? ==> commands == old(commands) && headerIndex == old(headerIndex)
    {
      if commands.None? {
        commands := Some(theoryCommands);
        headerIndex := FirstTheoryCommand(theoryCommands);
      }
    }

    /** On success the anchor is live, and at or after the header. */
    method EnsureAnchor(snapshot: WorkingTheorySnapshot) returns (ok: bool)
      requires Consistent(snapshot) && commands.Some? && header >= 0
      modifies client
      modifies snapshot`anchor, snapshot`cursor, snapshot`mode, snapshot`proofLevel, snapshot`lastDrift
      ensures Consistent(snapshot) && client.Grows() && client.requests >= old(client.requests)
      ensures client.initFailures >= old(client.initFailures)
      ensures ok <==> old(CanAnchor(snapshot))
      ensures snapshot.cursor == if ok && old(snapshot.anchor).None? then header else old(snapshot.cursor)
      ensures snapshot.lastDrift == old(DriftToReport(snapshot))
      ensures ok ==> snapshot.anchor.Some? && snapshot.anchor.value in client.live
      ensures !ok && DistinctLines() ==> client.InitFailed()
    {
      if snapshot.anchor.None? {
        ok := BootstrapAnchor(snapshot);
        return;
      }
      var drift := DetectDrift(snapshot);
      if drift.None? {
        return true;
      }
      snapshot.lastDrift := drift;
      ok := RebuildAnchorFromHeader(snapshot);
    }

    method BootstrapAnchor(snapshot: WorkingTheorySnapshot) returns (ok: bool)
      requires Consistent(snapshot) && snapshot.anchor.None? && commands.Some? && header >= 0
      modifies client
      modifies snapshot`anchor, snapshot`cursor, snapshot`mode, snapshot`proofLevel, snapshot`lastDrift
      ensures Consistent(snapshot) && client.Grows()
      ensures ok == client.initSucceeds(old(client.requests)) && client.requests == old(client.requests) + 1
      ensures client.initFailures == old(client.initFailures) + if ok then 0 else 1
      ensures ok ==> snapshot.anchor.Some? && snapshot.anchor.value in client.live && snapshot.cursor == headerIndex
      ensures !ok ==> snapshot.anchor.None? && snapshot.cursor == old(snapshot.cursor)
      ensures snapshot.lastDrift == None
    {
      var init := client.InitAfterHeader();
      if init.None? {
        snapshot.lastDrift := None;
        return false;
      }
      var state := init.value;
      snapshot.SetAnchor(state.stateId, headerIndex, state.mode, state.proofLevel);
      snapshot.lastDrift := None;
      return true;
    }

    /** The only drift there can be is a lost state: an id never changes its mode or proof level. */
    method DetectDrift(snapshot: WorkingTheorySnapshot) returns (drift: Option<DriftReason>)
      requires Consistent(snapshot) && snapshot.anchor.Some?
      modifies client
      ensures Consistent(snapshot) && client.Grows()
      ensures client.requests == old(client.requests) + 1 && client.initFailures == old(client.initFailures)
      ensures client.live == old(client.live) - client.forgotten(old(client.requests))
      ensures drift == if snapshot.anchor.value in client.live then None else Some(AnchorStateUnavailable)
    {
      var info := client.GetStateInfo(snapshot.anchor.value);
      if info.None? {
        return Some(AnchorStateUnavailable);
      }
      if snapshot.mode.Some? && info.value.mode != snapshot.mode.value {
        return Some(ModeMismatch);
      }
      if snapshot.proofLevel.Some? && info.value.proofLevel != snapshot.proofLevel.value {
        return Some(ProofLevelMismatch);
      }
      return None;
    }

    /** With distinct lines a rebuild cannot fail once the header state is back. */
    method RebuildAnchorFromHeader(snapshot: WorkingTheorySnapshot) returns (ok: bool)
      requires Consistent(snapshot) && snapshot.anchor.Some?
      modifies client
      modifies snapshot`anchor, snapshot`cursor, snapshot`mode, snapshot`proofLevel
      ensures Consistent(snapshot) && client.Grows()
      ensures snapshot.cursor == old(snapshot.cursor)
      ensures ok ==> snapshot.anchor.Some? && snapshot.anchor.value in client.live
      ensures !ok ==> snapshot.anchor == old(snapshot.anchor)
      ensures client.requests == old(client.requests) + 1
      ensures client.initFailures ==
              old(client.initFailures) + if client.initSucceeds(old(client.requests)) then 0 else 1
      ensures ok <==> client.initSucceeds(old(client.requests)) && Patched(snapshot).Replay(snapshot.cursor).Some?
      ensures DistinctLines() ==> ok == client.initSucceeds(old(client.requests))
    {
      var init := client.InitAfterHeader();
      if init.None? {
        return false;
      }
      var replayUpto := if snapshot.cursor >= headerIndex then snapshot.cursor else headerIndex;
      var anchor := ReplayFromHeader(snapshot, init.value, replayUpto);
      if anchor.None? {
        return false;
      }
      snapshot.SetAnchor(anchor.value.stateId, replayUpto, anchor.value.mode, anchor.value.proofLevel);
      return true;
    }

    /** The loop of the source's rebuild: the effective commands after the header, from a given header state. */
    method ReplayFromHeader(snapshot: WorkingTheorySnapshot, start: StateResult, replayUpto: int)
        returns (anchor: Option<StateResult>)
      requires client.Valid() && start.stateId in client.live && client.live[start.stateId] == client.headerState
      requires start.mode == client.headerState.mode && start.proofLevel == client.headerState.proofLevel
      requires 0 <= headerIndex == header <= replayUpto < |theoryCommands|
      modifies client
      ensures client.Valid() && client.Grows()
      ensures client.requests == old(client.requests) && client.initFailures == old(client.initFailures)
      ensures anchor.Some? <==> Patched(snapshot).Replay(replayUpto).Some?
      ensures anchor.Some? ==>
        && anchor.value.stateId in client.live
        && Some(client.live[anchor.value.stateId]) == Patched(snapshot).Replay(replayUpto)
        && anchor.value.mode == client.live[anchor.value.stateId].mode
        && anchor.value.proofLevel == client.live[anchor.value.stateId].proofLevel
    {
      var current := start;
      var index := headerIndex + 1;
      while index < replayUpto + 1
        invariant headerIndex < index <= replayUpto + 1
        invariant client.Valid() && client.Grows() && current.stateId in client.live
        invariant client.requests == old(client.requests) && client.initFailures == old(client.initFailures)
        invariant current.mode == client.live[current.stateId].mode
        invariant current.proofLevel == client.live[current.stateId].proofLevel
        invariant Patched(snapshot).Replay(index - 1) == Some(client.live[current.stateId])
      {
        var text := PatchedText(snapshot, theoryCommands[index]);
        var replay := client.Execute(current.stateId, text);
        if !replay.IsSuccess() {
          Patched(snapshot).FailureLasts(index, replayUpto);
          return None;
        }
        current := replay;
        index := index + 1;
      }
      return Some(current);
    }
  }
}
