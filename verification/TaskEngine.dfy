/** repl/minimal.py, engine/controller.py and engine/adapters.py: the budgeted search for a repair. */
module TaskEngine {
  import opened RepairModel
  import opened ProverStates
  import opened WorkingSnapshot
  import opened BlockLocalizer

  // ---------------------------------------------------------------- what counts as a repair

  /** The contract of a block kind, judged by the prover state the candidate leads to. */
  function CheckContract(kind: BlockKind, entryLevel: int, r: StateResult): ValidationResult {
    var met := match kind
      case TerminalProofStepBlock => r.status.ProofComplete? || (r.IsSuccess() && r.proofLevel < entryLevel)
      case WholeProofBodyBlock => r.IsSuccess() && r.proofLevel < entryLevel
      case TheoremShellBlock => r.status.ProofComplete? && r.proofLevel == 0 && !r.mode.Proof?
      case TopLevelCommandBlock => r.IsSuccess() && !r.mode.Proof? && r.proofLevel == 0
      case OtherBlock(_) => false;
    if met then ValidationResult(Passed, NoReason)
    else ValidationResult(FailedContract, if kind.OtherBlock? then UnsupportedBlockKind else ContractNotMet)
  }

  function ValidateExecution(kind: BlockKind, entryLevel: int, r: StateResult): ValidationResult {
    if r.status.Timeout? then ValidationResult(FailedTimeout, ExecutionMessage("timeout"))
    else if !r.IsSuccess() then ValidationResult(FailedExecution, ExecutionMessage("execution_failed"))
    else CheckContract(kind, entryLevel, r)
  }

  /** Where the candidates for one task are tried out. */
  datatype Bench = Bench(exec: (ToplevelState, string) -> ExecOutcome, state: ToplevelState, entryLevel: int) {
    function Verdict(kind: BlockKind, text: string): ValidationResult {
      ValidateExecution(kind, entryLevel, Result(0, state, exec(state, text)))
    }

    predicate Passes(trial: Trial) {
      Verdict(trial.block.blockKind, trial.text).status.Passed?
    }

    /** What each block kind asks of a candidate, by the state that it leads to; and a candidate that cannot be
        executed in time, or at all, is told from one that falls short. */
    lemma VerdictMeans(kind: BlockKind, text: string)
      ensures var status, outcome := Verdict(kind, text).status, exec(state, text);
              && (status.FailedTimeout? <==> outcome == Rejected(true))
              && (status.FailedExecution? <==> outcome == Rejected(false))
              && (status.Passed? <==>
                    && outcome.Executed?
                    && var next := outcome.state;
                       var closed := state.proofLevel > 0 && next.proofLevel == 0;
                       match kind
                       case TerminalProofStepBlock => closed || next.proofLevel < entryLevel
                       case WholeProofBodyBlock => next.proofLevel < entryLevel
                       case TheoremShellBlock => closed && next.mode != Proof
                       case TopLevelCommandBlock => next.proofLevel == 0 && next.mode != Proof
                       case OtherBlock(_) => false)
              && (status.FailedContract? <==> outcome.Executed? && !status.Passed?)
    {
    }

    /** A candidate that passes was executed without an error, whatever its block kind asks for. */
    lemma PassedMeansExecuted(kind: BlockKind, text: string)
      requires Verdict(kind, text).status.Passed?
      ensures exec(state, text).Executed?
      ensures !kind.OtherBlock?
      ensures kind.TheoremShellBlock? ==> state.proofLevel > 0 && exec(state, text).state.proofLevel == 0
      ensures kind.WholeProofBodyBlock? ==> exec(state, text).state.proofLevel < entryLevel
    {
      assert !Result(0, state, Rejected(true)).IsSuccess() && !Result(0, state, Rejected(false)).IsSuccess();
    }
  }

  // ---------------------------------------------------------------- the flat search

  /** One candidate of the flattened search space, with the place of its block in the fallback order. */
  datatype Trial = Trial(depth: nat, block: RepairBlockCandidate, text: string)

  datatype SearchResult = SearchResult(attempted: seq<string>, winner: Option<Trial>, exhausted: bool)

  /** A search that goes on after `tried` candidates in vain. */
  function Later(tried: seq<string>, r: SearchResult): SearchResult {
    r.(attempted := tried + r.attempted)
  }

  /** The reference: try one candidate after the other until one passes or the budget is gone. */
  ghost function Search(bench: Bench, trials: seq<Trial>, budget: int): SearchResult {
    if trials == [] then SearchResult([], None, false)
    else if budget <= 0 then SearchResult([], None, true)
    else if bench.Passes(trials[0]) then SearchResult([trials[0].text], Some(trials[0]), false)
    else Later([trials[0].text], Search(bench, trials[1..], budget - 1))
  }

  /** How many candidates the budget covers. */
  function Window(count: nat, budget: int): nat {
    if budget <= 0 then 0 else if budget < count then budget else count
  }

  /** The search accepts the first passing candidate within the budget; without one it tries exactly
      the candidates the budget covers, and reports an exhausted budget iff there were more. */
  lemma {:induction false} SearchIsFirstPassing(bench: Bench, trials: seq<Trial>, budget: int)
    ensures
      var r := Search(bench, trials, budget);
      var n := Window(|trials|, budget);
      var m := |r.attempted|;
      && m <= n
      && (forall k :: 0 <= k < m ==> r.attempted[k] == trials[k].text)
      && (r.winner.Some? ==> m > 0 && bench.Passes(trials[m - 1]) && r.winner == Some(trials[m - 1]))
      && (r.winner.None? ==> m == n)
      && (forall k :: 0 <= k < m - (if r.winner.Some? then 1 else 0) ==> !bench.Passes(trials[k]))
      && (r.exhausted <==> r.winner.None? && n < |trials|)
  {
    if trials != [] && budget > 0 && !bench.Passes(trials[0]) {
      var rest := trials[1..];
      SearchIsFirstPassing(bench, rest, budget - 1);
      var m := |Search(bench, trials, budget).attempted|;
      forall k | 0 < k < m
        ensures Search(bench, trials, budget).attempted[k] == trials[k].text
        ensures k < m - (if Search(bench, trials, budget).winner.Some? then 1 else 0) ==> !bench.Passes(trials[k])
      {
        assert trials[k] == rest[k - 1];
      }
    }
  }

  /** The search finds something iff some candidate within the budget passes. */
  lemma {:induction false} SearchFindsIffSomePasses(bench: Bench, trials: seq<Trial>, budget: int)
    ensures Search(bench, trials, budget).winner.Some? <==>
            exists k :: 0 <= k < Window(|trials|, budget) && bench.Passes(trials[k])
  {
    SearchIsFirstPassing(bench, trials, budget);
  }

  /** A larger budget never changes an answer that a smaller one found. */
  lemma {:induction false} LargerBudgetKeepsTheAnswer(bench: Bench, trials: seq<Trial>, budget: int, larger: int)
    requires budget <= larger && Search(bench, trials, budget).winner.Some?
    ensures Search(bench, trials, larger) == Search(bench, trials, budget)
  {
    if trials != [] && !bench.Passes(trials[0]) {
      LargerBudgetKeepsTheAnswer(bench, trials[1..], budget - 1, larger - 1);
    }
  }

  /** Searching block by block with a shared budget is searching the concatenation. */
  lemma {:induction false} SearchInBlocks(bench: Bench, first: seq<Trial>, rest: seq<Trial>, budget: int)
    ensures
      var r := Search(bench, first, budget);
      Search(bench, first + rest, budget) ==
      if r.winner.Some? || r.exhausted then r
      else Later(r.attempted, Search(bench, rest, budget - |r.attempted|))
  {
    if first == [] {
      assert first + rest == rest;
      assert Later([], Search(bench, rest, budget)) == Search(bench, rest, budget);
    } else {
      assert (first + rest)[1..] == first[1..] + rest && (first + rest)[0] == first[0];
      if budget > 0 && !bench.Passes(first[0]) {
        SearchInBlocks(bench, first[1..], rest, budget - 1);
        var r := Search(bench, first[1..], budget - 1);
        var s := Search(bench, rest, budget - 1 - |r.attempted|);
        assert [first[0].text] + (r.attempted + s.attempted) == [first[0].text] + r.attempted + s.attempted;
      }
    }
  }

  /** No budget and a negative budget are the same. */
  lemma NoBudget(bench: Bench, trials: seq<Trial>, budget: int)
    ensures Search(bench, trials, if budget > 0 then budget else 0) == Search(bench, trials, budget)
  {
  }

  // ---------------------------------------------------------------- the search space

  function BlockTrials(depth: nat, block: RepairBlockCandidate, texts: seq<string>): (r: seq<Trial>)
    ensures |r| == |texts| && forall k :: 0 <= k < |r| ==> r[k] == Trial(depth, block, texts[k])
  {
    if texts == [] then []
    else
      var n := |texts| - 1;
      BlockTrials(depth, block, texts[..n]) + [Trial(depth, block, texts[n])]
  }

  /** The blocks to try, best first: the candidates of the task, else those that its chain of block kinds
      names, else the failing block itself. Unknown kinds are left out. */
  function FallbackCandidates(task: LocalizedTask): seq<RepairBlockCandidate> {
    if task.fallbackCandidates != [] then task.fallbackCandidates
    else FromChain(if task.fallbackChain != [] then task.fallbackChain else [task.blockKind])
  }

  /** The first kind of the chain is the primary one, whether or not it is known. */
  function FromChain(chain: seq<BlockKind>): seq<RepairBlockCandidate> {
    if chain == [] then []
    else
      var n := |chain| - 1;
      match ContractForBlockKind(chain[n])
      case None => FromChain(chain[..n])
      case Some(contract) =>
        FromChain(chain[..n]) + [RepairBlockCandidate(chain[n], contract, if n == 0 then Primary else Fallback)]
  }

  /** Where in a chain the known kinds stand, in order. */
  function KnownPlaces(chain: seq<BlockKind>): (places: seq<int>)
    ensures forall i :: 0 <= i < |places| ==> 0 <= places[i] < |chain|
    ensures forall i, j :: 0 <= i < j < |places| ==> places[i] < places[j]
    ensures forall k :: 0 <= k < |chain| ==> (k in places <==> !chain[k].OtherBlock?)
  {
    if chain == [] then []
    else
      var n := |chain| - 1;
      assert forall k :: 0 <= k < n ==> chain[..n][k] == chain[k];
      KnownPlaces(chain[..n]) + if chain[n].OtherBlock? then [] else [n]
  }

  /** The blocks named by a chain are those of known kind, in order, each with its contract; the one that the
      chain starts with, if it is known, is the primary one. */
  lemma {:induction false} ChainNames(chain: seq<BlockKind>)
    ensures |FromChain(chain)| == |KnownPlaces(chain)|
    ensures forall i :: 0 <= i < |KnownPlaces(chain)| ==> Names(chain, KnownPlaces(chain)[i], FromChain(chain)[i])
  {
    if chain != [] {
      ChainNames(chain[..|chain| - 1]);
      OneMoreNamed(chain, KnownPlaces(chain[..|chain| - 1]));
    }
  }

  lemma OneMoreNamed(chain: seq<BlockKind>, places: seq<int>)
    requires chain != [] && |FromChain(chain[..|chain| - 1])| == |places|
    requires forall i :: 0 <= i < |places| ==>
      0 <= places[i] < |chain| - 1 && Names(chain[..|chain| - 1], places[i], FromChain(chain[..|chain| - 1])[i])
    ensures var n := |chain| - 1;
            var more := places + if chain[n].OtherBlock? then [] else [n];
            |FromChain(chain)| == |more| && forall i :: 0 <= i < |more| ==> Names(chain, more[i], FromChain(chain)[i])
  {
  }

  predicate Names(chain: seq<BlockKind>, place: nat, block: RepairBlockCandidate)
    requires place < |chain|
  {
    && block.blockKind == chain[place] && Some(block.blockContract) == ContractForBlockKind(chain[place])
    && (block.origin.Primary? <==> place == 0)
  }

  /** Which blocks are tried: the candidates of the task as they are, else what its chain names, else the failing
      block alone, if it is of a known kind. */
  lemma BlocksToTry(task: LocalizedTask)
    ensures var blocks, chain := FallbackCandidates(task), task.fallbackChain;
            if task.fallbackCandidates != [] then blocks == task.fallbackCandidates
            else if chain != [] then
              && |blocks| == |KnownPlaces(chain)|
              && forall i :: 0 <= i < |blocks| ==> Names(chain, KnownPlaces(chain)[i], blocks[i])
            else if task.blockKind.OtherBlock? then blocks == []
            else |blocks| == 1 && Names([task.blockKind], 0, blocks[0])
  {
    var chain := if task.fallbackChain != [] then task.fallbackChain else [task.blockKind];
    ChainNames(chain);
    assert |KnownPlaces([task.blockKind])| > 0 ==> 0 == KnownPlaces([task.blockKind])[0];
    assert 0 in KnownPlaces([task.blockKind]) <==> ![task.blockKind][0].OtherBlock?;
  }

  /** The localizer's tasks name the same blocks both ways. */
  lemma LocalizedChainIsRedundant(task: LocalizedTask)
    requires task.fallbackCandidates == DEFAULT_FALLBACKS && task.fallbackChain == DEFAULT_CHAIN
    ensures FallbackCandidates(task) == FallbackCandidates(task.(fallbackCandidates := []))
  {
    var one, two := DEFAULT_CHAIN[..1], DEFAULT_CHAIN[..2];
    assert one[..0] == [] && two[..1] == one;
    assert FromChain(one) == [DEFAULT_FALLBACKS[0]];
    assert FromChain(two) == DEFAULT_FALLBACKS[..2];
    assert FromChain(DEFAULT_CHAIN) == DEFAULT_FALLBACKS;
  }

  /** The task as the controller sees it for one block kind. */
  function Effective(task: LocalizedTask, block: RepairBlockCandidate): LocalizedTask {
    task.(blockKind := block.blockKind)
  }

  /** What a task has to offer to the search: its block kinds, each with what the generator proposes for
      it. The generator is an arbitrary function of the task and of how often it was asked before. */
  datatype SearchSpace = SearchSpace(generate: (nat, LocalizedTask) -> seq<string>, clock: nat, task: LocalizedTask) {
    function Blocks(): seq<RepairBlockCandidate> {
      FallbackCandidates(task)
    }

    /** What the generator proposes for a block. */
    function TextsAt(depth: nat): seq<string>
      requires depth < |Blocks()|
    {
      generate(clock + depth, Effective(task, Blocks()[depth]))
    }

    function BlockAt(depth: nat): seq<Trial>
      requires depth < |Blocks()|
    {
      BlockTrials(depth, Blocks()[depth], TextsAt(depth))
    }

    /** All candidates from one block kind on: those of the first, then those of the next, and so on. */
    function TrialsFrom(depth: nat): seq<Trial>
      requires depth <= |Blocks()|
      decreases |Blocks()| - depth
    {
      if depth == |Blocks()| then [] else BlockAt(depth) + TrialsFrom(depth + 1)
    }

    /** What it proposes for the first `depth` blocks together. */
    ghost function Proposed(depth: nat): seq<string>
      requires depth <= |Blocks()|
    {
      if depth == 0 then [] else Proposed(depth - 1) + TextsAt(depth - 1)
    }

    /** The i-th proposal for a block comes right after those for the blocks before it. */
    lemma {:induction false} ProposalAt(depth: nat, i: nat)
      requires depth < |Blocks()| && i < |TextsAt(depth)|
      ensures |Proposed(depth)| + i < |TrialsFrom(0)|
      ensures TrialsFrom(0)[|Proposed(depth)| + i] == Trial(depth, Blocks()[depth], TextsAt(depth)[i])
    {
      TrialsSplit(depth);
    }

    lemma {:induction false} TrialsSplit(depth: nat)
      requires depth <= |Blocks()|
      ensures |TrialsFrom(0)| == |Proposed(depth)| + |TrialsFrom(depth)|
      ensures TrialsFrom(0)[|Proposed(depth)|..] == TrialsFrom(depth)
      ensures forall k :: 0 <= k < |Proposed(depth)| ==> TrialsFrom(0)[k].text == Proposed(depth)[k]
    {
      if depth > 0 {
        TrialsSplit(depth - 1);
        var before, here := Proposed(depth - 1), BlockAt(depth - 1);
        CutAgain(TrialsFrom(0), |before|, here, TrialsFrom(depth));
      }
    }

    static lemma CutAgain(trials: seq<Trial>, n: nat, first: seq<Trial>, rest: seq<Trial>)
      requires n <= |trials| && trials[n..] == first + rest
      ensures trials[n + |first|..] == rest
      ensures forall k :: n <= k < n + |first| ==> trials[k] == first[k - n]
    {
      assert forall k :: n <= k < |trials| ==> trials[k] == trials[n..][k - n];
    }

    /** Every candidate is a proposal for one of the blocks. */
    lemma {:induction false} BlockOf(depth: nat, k: nat) returns (d: nat, i: nat)
      requires depth <= |Blocks()| && |Proposed(depth)| <= k < |TrialsFrom(0)|
      ensures depth <= d < |Blocks()| && i < |TextsAt(d)| && k == |Proposed(d)| + i
      decreases |Blocks()| - depth
    {
      TrialsSplit(depth);
      if k < |Proposed(depth)| + |TextsAt(depth)| {
        d, i := depth, k - |Proposed(depth)|;
      } else {
        d, i := BlockOf(depth + 1, k);
      }
    }

    lemma {:induction false} ProposedGrows(depth: nat, later: nat)
      requires depth <= later <= |Blocks()|
      ensures Proposed(depth) <= Proposed(later)
    {
      if depth < later { ProposedGrows(depth, later - 1); }
    }

    /** The search that the fallback loop performs: one block kind after the other, on a shared budget. */
    ghost function SearchByBlock(bench: Bench, depth: nat, budget: int): SearchResult
      requires depth <= |Blocks()|
      decreases |Blocks()| - depth
    {
      if depth == |Blocks()| then SearchResult([], None, false)
      else
        var r := Search(bench, BlockAt(depth), if budget > 0 then budget else 0);
        if r.winner.Some? || r.exhausted then r
        else Later(r.attempted, SearchByBlock(bench, depth + 1, budget - |r.attempted|))
    }

    /** The search `whole` has tried the block kinds before `depth` in vain. The trigger keeps the verifier
        from unfolding what is still to come. */
    ghost predicate Remains(bench: Bench, whole: SearchResult, tried: seq<string>, depth: nat, budget: int)
      requires depth <= |Blocks()|
    {
      forall left: int {:trigger SearchByBlock(bench, depth, left)} :: left == budget - |tried| ==>
        whole == Later(tried, SearchByBlock(bench, depth, left))
    }

    /** A block searched in vain hands what is left of the budget to the next; any other decides. */
    lemma NextBlock(bench: Bench, whole: SearchResult, tried: seq<string>, depth: nat, budget: int, r: SearchResult)
      requires depth < |Blocks()| && Remains(bench, whole, tried, depth, budget)
      requires r == Search(bench, BlockAt(depth), if budget > |tried| then budget - |tried| else 0)
      ensures if r.winner.Some? || r.exhausted then whole == Later(tried, r)
              else Remains(bench, whole, tried + r.attempted, depth + 1, budget)
    {
      assert whole == Later(tried, SearchByBlock(bench, depth, budget - |tried|));
      if r.winner.None? && !r.exhausted {
        var s := SearchByBlock(bench, depth + 1, budget - |tried + r.attempted|);
        assert tried + (r.attempted + s.attempted) == tried + r.attempted + s.attempted;
      }
    }

    lemma FirstBlock(bench: Bench, depth: nat, budget: int)
      requires depth < |Blocks()|
      ensures var r := Search(bench, BlockAt(depth), budget);
              SearchByBlock(bench, depth, budget) ==
              if r.winner.Some? || r.exhausted then r
              else Later(r.attempted, SearchByBlock(bench, depth + 1, budget - |r.attempted|))
    {
      NoBudget(bench, BlockAt(depth), budget);
    }

    /** It is the flat search over all candidates. */
    lemma {:induction false} ByBlockIsFlat(bench: Bench, depth: nat, budget: int)
      requires depth <= |Blocks()|
      ensures SearchByBlock(bench, depth, budget) == Search(bench, TrialsFrom(depth), budget)
      decreases |Blocks()| - depth
    {
      if depth < |Blocks()| {
        FirstBlock(bench, depth, budget);
        ByBlockIsFlat(bench, depth + 1, budget - |Search(bench, BlockAt(depth), budget).attempted|);
        SearchInBlocks(bench, BlockAt(depth), TrialsFrom(depth + 1), budget);
      }
    }

    lemma StartOfSearch(bench: Bench, budget: int)
      ensures Remains(bench, Search(bench, TrialsFrom(0), budget), [], 0, budget)
    {
      ByBlockIsFlat(bench, 0, budget);
      var r := Search(bench, TrialsFrom(0), budget);
      assert [] + r.attempted == r.attempted;
    }

    lemma EndOfSearch(bench: Bench, whole: SearchResult, tried: seq<string>, budget: int)
      requires Remains(bench, whole, tried, |Blocks()|, budget)
      ensures whole == SearchResult(tried, None, false)
    {
      assert whole == Later(tried, SearchByBlock(bench, |Blocks()|, budget - |tried|));
    }
  }

  // ---------------------------------------------------------------- the engine

  datatype TraceCounts = TraceCounts(inspects: nat, proposals: nat, validations: nat)

  datatype CandidateSource = AutoCandidateSource | ReviewCandidateSource(text: string)

  function FailedReport(taskId: TaskId, v: ValidationResult, attempted: seq<string>): TaskReport {
    TaskReport(taskId, Failed, None, None, false, Some(v), attempted, None, 0, None)
  }

  /** What the controller reports about a search through one block. */
  function BlockReport(taskId: TaskId, r: SearchResult, bench: Bench): TaskReport {
    if r.winner.Some? then
      TaskReport(taskId, Accepted, Some(Repair), Some(r.winner.value.text), false,
                 Some(bench.Verdict(r.winner.value.block.blockKind, r.winner.value.text)), r.attempted, None, 0, None)
    else if r.exhausted then
      FailedReport(taskId, ValidationResult(Inconclusive, ValidationBudgetExhausted), r.attempted)
    else
      FailedReport(taskId, ValidationResult(FailedContract, if r.attempted == [] then NoCandidateGenerated
                                                            else AllCandidatesRejected), r.attempted)
  }

  /** What the engine reports about a search through all blocks. */
  function EngineReport(task: LocalizedTask, r: SearchResult, bench: Bench, promote: bool): TaskReport {
    if r.winner.Some? then
      var w := r.winner.value;
      TaskReport(task.taskId, Accepted, Some(Repair), Some(w.text), false,
                 Some(bench.Verdict(w.block.blockKind, w.text)), r.attempted, Some(w.block.blockKind), w.depth,
                 if w.depth > 0 || !w.block.origin.Primary? then Some(w.block.origin) else None)
    else if r.exhausted then
      FailedReport(task.taskId, ValidationResult(Inconclusive, ValidationBudgetExhausted), r.attempted)
    else
      GiveUp(task, r.attempted, promote)
  }

  /** No candidate of any block kind will do. */
  function GiveUp(task: LocalizedTask, attempted: seq<string>, promote: bool): TaskReport {
    if promote then
      TaskReport(task.taskId, Escalated, Some(Repair), Some(task.blockText), false,
                 Some(ValidationResult(Inconclusive, AutoCandidatesExhausted)), attempted, None, 0, None)
    else
      FailedReport(task.taskId, ValidationResult(FailedContract, AllBlockKindsFailed), attempted)
  }

  predicate RanOut(report: TaskReport) {
    report.validation.Some? && report.validation.value.reason.ValidationBudgetExhausted?
  }

  /** What validating the text of a review comes to where the task starts: a search with one candidate. */
  function ReviewVerdict(spec: TaskSpec, bench: Bench, text: string): ValidationResult {
    if spec.maxValidations <= 0 then ValidationResult(Inconclusive, ValidationBudgetExhausted)
    else if bench.Verdict(spec.task.blockKind, text).status.Passed? then bench.Verdict(spec.task.blockKind, text)
    else ValidationResult(FailedContract, AllCandidatesRejected)
  }

  class DeterministicTaskController {
    const client: ReplClient
    const generate: (nat, LocalizedTask) -> seq<string>
    var clock: nat

    constructor (client: ReplClient, generate: (nat, LocalizedTask) -> seq<string>)
      ensures this.client == client && this.generate == generate
    {
      this.client, this.generate, clock := client, generate, 0;
    }

    ghost function BenchFor(task: LocalizedTask): Bench
      requires task.sourceStateId.Some? && task.sourceStateId.value in client.live
      reads client
    {
      Bench(client.exec, client.live[task.sourceStateId.value], task.entryProofLevel)
    }

    /** The source's run_with_source: the search over one block's candidates. The block and its place in the
        fallback order only serve to describe the search. */
    method RunWithSource(spec: TaskSpec, source: CandidateSource, ghost depth: nat, ghost block: RepairBlockCandidate)
        returns (report: TaskReport, counts: TraceCounts)
      requires client.Valid() && block.blockKind == spec.task.blockKind
      requires spec.task.sourceStateId.Some? ==> spec.task.sourceStateId.value in client.live
      modifies this`clock, client
      ensures client.Valid() && client.Grows() && client.KeepsLive()
      ensures client.executions == old(client.executions) + |report.attemptedCandidates|
      ensures counts.proposals == counts.validations == |report.attemptedCandidates|
      ensures clock == old(clock) + if source.AutoCandidateSource? && spec.task.sourceStateId.Some? then 1 else 0
      ensures spec.task.sourceStateId.None? ==>
        report == FailedReport(spec.task.taskId, ValidationResult(FailedContract, MissingSourceState), [])
      ensures spec.task.sourceStateId.Some? ==>
        var texts := if source.ReviewCandidateSource? then [source.text] else generate(old(clock), spec.task);
        var bench := old(BenchFor(spec.task));
        var found := Search(bench, BlockTrials(depth, block, texts), spec.maxValidations);
        && report == BlockReport(spec.task.taskId, found, bench)
        && exists tried :: Told(bench, spec.task.blockKind, texts, spec.maxValidations, report, tried)
    {
      if spec.task.sourceStateId.None? {
        report := FailedReport(spec.task.taskId, ValidationResult(FailedContract, MissingSourceState), []);
        return report, TraceCounts(0, 0, 0);
      }
      ghost var bench := BenchFor(spec.task);
      var candidates := Candidates(spec.task, source);
      BlockTold(bench, depth, block, candidates, spec.maxValidations, spec.task.taskId);
      if candidates == [] {
        report := FailedReport(spec.task.taskId, ValidationResult(FailedContract, NoCandidateGenerated), []);
        return report, TraceCounts(1, 0, 0);
      }
      report, counts := SearchCandidates(spec, candidates, depth, block);
    }

    /** The loop of the source's run_with_source. */
    method SearchCandidates(spec: TaskSpec, candidates: seq<string>, ghost depth: nat,
                            ghost block: RepairBlockCandidate)
        returns (report: TaskReport, counts: TraceCounts)
      requires client.Valid() && candidates != [] && block.blockKind == spec.task.blockKind
      requires spec.task.sourceStateId.Some? && spec.task.sourceStateId.value in client.live
      modifies client
      ensures client.Valid() && client.Grows() && client.KeepsLive()
      ensures client.executions == old(client.executions) + |report.attemptedCandidates|
      ensures counts.proposals == counts.validations == |report.attemptedCandidates|
      ensures var bench := old(BenchFor(spec.task));
        report ==
        BlockReport(spec.task.taskId, Search(bench, BlockTrials(depth, block, candidates), spec.maxValidations), bench)
    {
      ghost var bench := BenchFor(spec.task);
      var attempted: seq<string>, validateCount := [], 0;
      for i := 0 to |candidates|
        invariant client.Valid() && client.Grows() && client.KeepsLive()
        invariant validateCount == i && attempted == candidates[..i]
        invariant client.executions == old(client.executions) + i
        invariant i <= Window(|candidates|, spec.maxValidations)
        invariant forall k :: 0 <= k < i ==> !bench.Verdict(block.blockKind, candidates[k]).status.Passed?
      {
        if validateCount >= spec.maxValidations {
          SearchStops(bench, depth, block, candidates, spec.maxValidations, i, false);
          var exhausted := ValidationResult(Inconclusive, ValidationBudgetExhausted);
          report := FailedReport(spec.task.taskId, exhausted, attempted);
          return report, TraceCounts(1, validateCount, validateCount);
        }
        attempted := attempted + [candidates[i]];
        var validation := TryCandidate(spec.task, candidates[i], bench);
        validateCount := validateCount + 1;
        if validation.status.Passed? {
          SearchStops(bench, depth, block, candidates, spec.maxValidations, i + 1, true);
          report := TaskReport(spec.task.taskId, Accepted, Some(Repair), Some(candidates[i]), false, Some(validation),
                               attempted, None, 0, None);
          return report, TraceCounts(1, validateCount, validateCount);
        }
      }
      SearchStops(bench, depth, block, candidates, spec.maxValidations, |candidates|, false);
      report := FailedReport(spec.task.taskId, ValidationResult(FailedContract, AllCandidatesRejected), attempted);
      counts := TraceCounts(1, validateCount, validateCount);
    }

    method TryCandidate(task: LocalizedTask, text: string, ghost bench: Bench) returns (validation: ValidationResult)
      requires client.Valid() && task.sourceStateId.Some? && task.sourceStateId.value in client.live
      requires bench == BenchFor(task)
      modifies client
      ensures client.Valid() && client.Grows() && client.KeepsLive()
      ensures client.executions == old(client.executions) + 1
      ensures validation == bench.Verdict(task.blockKind, text)
    {
      var execution := client.Execute(task.sourceStateId.value, text);
      validation := ValidateExecution(task.blockKind, task.entryProofLevel, execution);
    }

    method Candidates(task: LocalizedTask, source: CandidateSource) returns (texts: seq<string>)
      modifies this`clock
      ensures texts == if source.ReviewCandidateSource? then [source.text] else generate(old(clock), task)
      ensures clock == old(clock) + if source.AutoCandidateSource? then 1 else 0
    {
      match source
      case ReviewCandidateSource(text) =>
        texts := [text];
      case AutoCandidateSource =>
        texts := generate(clock, task);
        clock := clock + 1;
    }

    /** A replacement passes iff there is a state to try it in, some budget, and it meets the contract
        of the failing block there. Any other outcome of the trial itself reads as a rejected candidate. */
    method ValidateCandidate(spec: TaskSpec, text: string) returns (v: ValidationResult)
      requires client.Valid()
      requires spec.task.sourceStateId.Some? ==> spec.task.sourceStateId.value in client.live
      modifies this`clock, client
      ensures client.Valid() && client.Grows() && client.KeepsLive()
      ensures client.executions <= old(client.executions) + 1
      ensures v.status.Passed? <==>
        && spec.task.sourceStateId.Some? && spec.maxValidations > 0
        && old(BenchFor(spec.task)).Verdict(spec.task.blockKind, text).status.Passed?
      ensures v == if spec.task.sourceStateId.None? then ValidationResult(FailedContract, MissingSourceState)
                   else ReviewVerdict(spec, old(BenchFor(spec.task)), text)
    {
      ghost var block := RepairBlockCandidate(spec.task.blockKind, spec.blockContract, Primary);
      var report, _ := RunWithSource(spec, ReviewCandidateSource(text), 0, block);
      v := report.validation.value;
    }
  }

  /** What the loop over a block has to know to tell the result of the search. */
  lemma {:induction false} SearchStops(bench: Bench, depth: nat, block: RepairBlockCandidate, texts: seq<string>,
                                       budget: int, tried: nat, found: bool)
    requires tried <= Window(|texts|, budget)
    requires if found then tried > 0 && bench.Verdict(block.blockKind, texts[tried - 1]).status.Passed?
             else tried == Window(|texts|, budget)
    requires forall k :: 0 <= k < tried - (if found then 1 else 0) ==>
               !bench.Verdict(block.blockKind, texts[k]).status.Passed?
    ensures Search(bench, BlockTrials(depth, block, texts), budget) ==
            SearchResult(texts[..tried], if found then Some(Trial(depth, block, texts[tried - 1])) else None,
                         !found && tried < |texts|)
  {
    var trials := BlockTrials(depth, block, texts);
    SearchIsFirstPassing(bench, trials, budget);
    assert forall k :: 0 <= k < |texts| ==>
        bench.Passes(trials[k]) == bench.Verdict(block.blockKind, texts[k]).status.Passed?;
    var r := Search(bench, trials, budget);
    if found { assert bench.Passes(trials[tried - 1]); }
    assert |r.attempted| == tried;
    assert r.attempted == texts[..tried];
  }

  /** The report brings the first of the texts that meets the contract, if the budget covers it. Otherwise it
      says that none of those that it covers did, and whether there were more, or none at all. */
  ghost predicate Told(bench: Bench, kind: BlockKind, texts: seq<string>, budget: int, report: TaskReport, tried: nat)
  {
    && tried == |report.attemptedCandidates| && tried <= Window(|texts|, budget)
    && report.attemptedCandidates == texts[..tried]
    && (forall k :: 0 <= k < tried - (if report.outcome.Accepted? then 1 else 0) ==>
          !bench.Verdict(kind, texts[k]).status.Passed?)
    && if report.outcome.Accepted? then
         && tried > 0 && bench.Verdict(kind, texts[tried - 1]).status.Passed?
         && report.artifactKind == Some(Repair) && report.artifactText == Some(texts[tried - 1])
         && report.validation == Some(bench.Verdict(kind, texts[tried - 1]))
       else
         && tried == Window(|texts|, budget)
         && report.outcome.Failed? && report.artifactKind == None && report.artifactText == None
         && report.validation ==
            Some(if tried < |texts| then ValidationResult(Inconclusive, ValidationBudgetExhausted)
                 else if texts == [] then ValidationResult(FailedContract, NoCandidateGenerated)
                 else ValidationResult(FailedContract, AllCandidatesRejected))
  }

  lemma BlockTold(bench: Bench, depth: nat, block: RepairBlockCandidate, texts: seq<string>, budget: int,
                  taskId: TaskId)
    ensures var r := Search(bench, BlockTrials(depth, block, texts), budget);
            Told(bench, block.blockKind, texts, budget, BlockReport(taskId, r, bench), |r.attempted|)
  {
    var trials := BlockTrials(depth, block, texts);
    SearchIsFirstPassing(bench, trials, budget);
    var r := Search(bench, trials, budget);
    assert r.attempted == texts[..|r.attempted|];
    forall k | 0 <= k < |texts|
      ensures bench.Passes(trials[k]) == bench.Verdict(block.blockKind, texts[k]).status.Passed?
    {
    }
  }

  /** The search `whole` is over with this block and reported right, or goes on with the next one. */
  ghost predicate Stepped(space: SearchSpace, bench: Bench, whole: SearchResult, tried: seq<string>, depth: nat,
                          budget: int, report: TaskReport)
    requires depth < |space.Blocks()|
  {
    var attempted := tried + report.attemptedCandidates;
    var block := space.Blocks()[depth];
    if report.outcome.Accepted? then
      && report.artifactText.Some?
      && whole == SearchResult(attempted, Some(Trial(depth, block, report.artifactText.value)), false)
      && report.artifactKind == Some(Repair) && !report.requiresRerun
      && report.validation == Some(bench.Verdict(block.blockKind, report.artifactText.value))
    else if RanOut(report) then
      && whole == SearchResult(attempted, None, true)
      && report.validation == Some(ValidationResult(Inconclusive, ValidationBudgetExhausted))
    else
      space.Remains(bench, whole, attempted, depth + 1, budget)
  }

  lemma StepOfSearch(space: SearchSpace, bench: Bench, whole: SearchResult, tried: seq<string>, depth: nat, budget: int,
                     report: TaskReport)
    requires depth < |space.Blocks()| && space.Remains(bench, whole, tried, depth, budget)
    requires
      var remaining := if budget > |tried| then budget - |tried| else 0;
      report == BlockReport(report.taskId, Search(bench, space.BlockAt(depth), remaining), bench)
    ensures Stepped(space, bench, whole, tried, depth, budget, report)
  {
    var r := Search(bench, space.BlockAt(depth), if budget > |tried| then budget - |tried| else 0);
    SearchIsFirstPassing(bench, space.BlockAt(depth), if budget > |tried| then budget - |tried| else 0);
    space.NextBlock(bench, whole, tried, depth, budget, r);
  }

  /** The report brings the i-th proposal for the block at place `d`: it meets the contract of that block, and
      whatever was proposed before it, for that block or for one before it, falls short. The report says which
      block that is, how far down it stands, and that it is a fallback, if it is one. */
  ghost predicate FoundAt(space: SearchSpace, bench: Bench, budget: int, report: TaskReport, d: nat, i: nat) {
    var blocks := space.Blocks();
    && d < |blocks| && i < |space.TextsAt(d)| && |space.Proposed(d)| + i < budget
    && report.taskId == space.task.taskId && !report.requiresRerun
    && report.artifactKind == Some(Repair) && report.artifactText == Some(space.TextsAt(d)[i])
    && report.fallbackDepth == d && report.selectedBlockKind == Some(blocks[d].blockKind)
    && report.fallbackOrigin == (if d == 0 && blocks[d].origin.Primary? then None else Some(blocks[d].origin))
    && report.attemptedCandidates == space.Proposed(d) + space.TextsAt(d)[..i + 1]
    && report.validation == Some(bench.Verdict(blocks[d].blockKind, space.TextsAt(d)[i]))
    && bench.Verdict(blocks[d].blockKind, space.TextsAt(d)[i]).status.Passed?
    && FallShort(space, bench, |space.Proposed(d)| + i)
  }

  /** The first `n` proposals do not meet the contracts of their blocks. */
  ghost predicate FallShort(space: SearchSpace, bench: Bench, n: nat) {
    forall e: nat, i: nat ::
      e < |space.Blocks()| && i < |space.TextsAt(e)| && |space.Proposed(e)| + i < n ==>
        !bench.Verdict(space.Blocks()[e].blockKind, space.TextsAt(e)[i]).status.Passed?
  }

  /** The report says that the proposals which the budget covers were all tried in vain, and whether there were
      more. If there were not, the failing text itself may be put up for review. */
  ghost predicate FoundNothing(space: SearchSpace, bench: Bench, budget: int, promote: bool, report: TaskReport) {
    var all := space.Proposed(|space.Blocks()|);
    var n := Window(|all|, budget);
    && report.attemptedCandidates == all[..n] && FallShort(space, bench, n)
    && report.taskId == space.task.taskId && !report.requiresRerun
    && report.selectedBlockKind == None && report.fallbackDepth == 0 && report.fallbackOrigin == None
    && if n < |all| then
         && report.outcome.Failed? && report.artifactKind == None && report.artifactText == None
         && report.validation == Some(ValidationResult(Inconclusive, ValidationBudgetExhausted))
       else if promote then
         && report.outcome.Escalated?
         && report.artifactKind == Some(Repair) && report.artifactText == Some(space.task.blockText)
         && report.validation == Some(ValidationResult(Inconclusive, AutoCandidatesExhausted))
       else
         && report.outcome.Failed? && report.artifactKind == None && report.artifactText == None
         && report.validation == Some(ValidationResult(FailedContract, AllBlockKindsFailed))
  }

  ghost predicate Found(space: SearchSpace, bench: Bench, budget: int, report: TaskReport) {
    report.outcome.Accepted? && exists d, i :: FoundAt(space, bench, budget, report, d, i)
  }

  /** What the report of a search through all blocks says of them. */
  lemma ReportTells(space: SearchSpace, bench: Bench, budget: int, promote: bool)
    ensures var report := EngineReport(space.task, Search(bench, space.TrialsFrom(0), budget), bench, promote);
            Found(space, bench, budget, report) || FoundNothing(space, bench, budget, promote, report)
  {
    if Search(bench, space.TrialsFrom(0), budget).winner.Some? {
      WinnerTold(space, bench, budget, promote);
    } else {
      NoWinnerTold(space, bench, budget, promote);
    }
  }

  lemma WinnerTold(space: SearchSpace, bench: Bench, budget: int, promote: bool)
    requires Search(bench, space.TrialsFrom(0), budget).winner.Some?
    ensures Found(space, bench, budget, EngineReport(space.task, Search(bench, space.TrialsFrom(0), budget), bench,
                                                     promote))
  {
    var r := Search(bench, space.TrialsFrom(0), budget);
    SearchIsFirstPassing(bench, space.TrialsFrom(0), budget);
    NothingBefore(space, bench, |r.attempted| - 1);
    var d, i := space.BlockOf(0, |r.attempted| - 1);
    space.ProposalAt(d, i);
    TriedInOrder(space, r.attempted, d, i);
    assert FoundAt(space, bench, budget, EngineReport(space.task, r, bench, promote), d, i);
  }

  lemma NoWinnerTold(space: SearchSpace, bench: Bench, budget: int, promote: bool)
    requires Search(bench, space.TrialsFrom(0), budget).winner.None?
    ensures FoundNothing(space, bench, budget, promote,
                         EngineReport(space.task, Search(bench, space.TrialsFrom(0), budget), bench, promote))
  {
    var r := Search(bench, space.TrialsFrom(0), budget);
    SearchIsFirstPassing(bench, space.TrialsFrom(0), budget);
    NothingBefore(space, bench, |r.attempted|);
    space.TrialsSplit(|space.Blocks()|);
    assert r.attempted == space.Proposed(|space.Blocks()|)[..|r.attempted|];
  }

  lemma NothingBefore(space: SearchSpace, bench: Bench, n: nat)
    requires n <= |space.TrialsFrom(0)| && forall k :: 0 <= k < n ==> !bench.Passes(space.TrialsFrom(0)[k])
    ensures FallShort(space, bench, n)
  {
    forall e: nat, i: nat | e < |space.Blocks()| && i < |space.TextsAt(e)| && |space.Proposed(e)| + i < n
      ensures !bench.Verdict(space.Blocks()[e].blockKind, space.TextsAt(e)[i]).status.Passed?
    {
      space.ProposalAt(e, i);
      assert !bench.Passes(space.TrialsFrom(0)[|space.Proposed(e)| + i]);
    }
  }

  lemma TriedInOrder(space: SearchSpace, attempted: seq<string>, d: nat, i: nat)
    requires d < |space.Blocks()| && i < |space.TextsAt(d)| && |attempted| == |space.Proposed(d)| + i + 1
    requires |attempted| <= |space.TrialsFrom(0)|
    requires forall k :: 0 <= k < |attempted| ==> attempted[k] == space.TrialsFrom(0)[k].text
    ensures attempted == space.Proposed(d) + space.TextsAt(d)[..i + 1]
  {
    space.TrialsSplit(d + 1);
    StartOfBoth(attempted, space.Proposed(d), space.TextsAt(d), i);
  }

  lemma StartOfBoth(texts: seq<string>, first: seq<string>, rest: seq<string>, i: nat)
    requires i < |rest| && |texts| == |first| + i + 1
    requires forall k :: 0 <= k < |texts| ==> texts[k] == (first + rest)[k]
    ensures texts == first + rest[..i + 1]
  {
  }

  class ReplDeterministicTaskEngine {
    const controller: DeterministicTaskController
    const promoteFailedBlockForReview: bool

    constructor (controller: DeterministicTaskController, promoteFailedBlockForReview: bool)
      ensures this.controller == controller && this.promoteFailedBlockForReview == promoteFailedBlockForReview
    {
      this.controller, this.promoteFailedBlockForReview := controller, promoteFailedBlockForReview;
    }

    /** The fallback loop with its shared budget is the flat search over all candidates of all blocks.
        Executions, proposals and validations are as many as there are attempted candidates. */
    method Run(spec: TaskSpec) returns (report: TaskReport, counts: TraceCounts)
      requires controller.client.Valid()
      requires spec.task.sourceStateId.Some? ==> spec.task.sourceStateId.value in controller.client.live
      modifies controller`clock, controller.client
      ensures controller.client.Valid() && controller.client.Grows() && controller.client.KeepsLive()
      ensures controller.client.executions == old(controller.client.executions) + |report.attemptedCandidates|
      ensures counts.proposals == counts.validations == |report.attemptedCandidates|
      ensures spec.task.sourceStateId.None? ==> report == GiveUp(spec.task, [], promoteFailedBlockForReview)
      ensures spec.task.sourceStateId.Some? ==>
        var bench := old(controller.BenchFor(spec.task));
        var trials := SearchSpace(controller.generate, old(controller.clock), spec.task).TrialsFrom(0);
        var found := Search(bench, trials, spec.maxValidations);
        report == EngineReport(spec.task, found, bench, promoteFailedBlockForReview)
      // in terms of what the generator proposes for each block
      ensures spec.task.sourceStateId.Some? ==>
        var bench := old(controller.BenchFor(spec.task));
        var space := SearchSpace(controller.generate, old(controller.clock), spec.task);
        || Found(space, bench, spec.maxValidations, report)
        || FoundNothing(space, bench, spec.maxValidations, promoteFailedBlockForReview, report)
    {
      ghost var space := SearchSpace(controller.generate, controller.clock, spec.task);
      if spec.task.sourceStateId.Some? {
        ReportTells(space, controller.BenchFor(spec.task), spec.maxValidations, promoteFailedBlockForReview);
      }
      report, counts := TryBlocks(spec);
    }

    /** The loop of the source's run. */
    method TryBlocks(spec: TaskSpec) returns (report: TaskReport, counts: TraceCounts)
      requires controller.client.Valid()
      requires spec.task.sourceStateId.Some? ==> spec.task.sourceStateId.value in controller.client.live
      modifies controller`clock, controller.client
      ensures controller.client.Valid() && controller.client.Grows() && controller.client.KeepsLive()
      ensures controller.client.executions == old(controller.client.executions) + |report.attemptedCandidates|
      ensures counts.proposals == counts.validations == |report.attemptedCandidates|
      ensures spec.task.sourceStateId.None? ==> report == GiveUp(spec.task, [], promoteFailedBlockForReview)
      ensures spec.task.sourceStateId.Some? ==>
        var bench := old(controller.BenchFor(spec.task));
        var trials := SearchSpace(controller.generate, old(controller.clock), spec.task).TrialsFrom(0);
        var found := Search(bench, trials, spec.maxValidations);
        report == EngineReport(spec.task, found, bench, promoteFailedBlockForReview)
    {
      var blocks := FallbackCandidates(spec.task);
      var attempted: seq<string>, validationCount := [], 0;
      counts := TraceCounts(0, 0, 0);
      ghost var known := spec.task.sourceStateId.Some?;
      ghost var space := SearchSpace(controller.generate, controller.clock, spec.task);
      ghost var bench := if known then controller.BenchFor(spec.task)
                         else Bench(controller.client.exec, controller.client.headerState, 0);
      ghost var whole := Search(bench, space.TrialsFrom(0), spec.maxValidations);
      space.StartOfSearch(bench, spec.maxValidations);
      for index := 0 to |blocks|
        invariant controller.client.Valid() && controller.client.Grows() && controller.client.KeepsLive()
        invariant controller.client.executions == old(controller.client.executions) + |attempted|
        invariant counts.proposals == counts.validations == validationCount == |attempted|
        invariant !known ==> attempted == []
        invariant known ==>
          && controller.clock == space.clock + index && bench == controller.BenchFor(spec.task)
          && space.Remains(bench, whole, attempted, index, spec.maxValidations)
      {
        var remaining := if spec.maxValidations > validationCount then spec.maxValidations - validationCount else 0;
        var result, more := TryBlock(spec, blocks[index], index, remaining, attempted, bench, space, whole);
        counts := TraceCounts(counts.inspects + more.inspects, counts.proposals + more.proposals,
                              counts.validations + more.validations);
        attempted := attempted + result.attemptedCandidates;
        validationCount := validationCount + |result.attemptedCandidates|;
        if result.outcome.Accepted? {
          var isFallback := index > 0 || !blocks[index].origin.Primary?;
          report := TaskReport(spec.task.taskId, Accepted, result.artifactKind, result.artifactText,
                               result.requiresRerun, result.validation, attempted, Some(blocks[index].blockKind),
                               if isFallback then index else 0,
                               if isFallback then Some(blocks[index].origin) else None);
          return;
        }
        if RanOut(result) {
          report := FailedReport(spec.task.taskId, result.validation.value, attempted);
          return;
        }
      }
      if known {
        space.EndOfSearch(bench, whole, attempted, spec.maxValidations);
      }
      report := GiveUp(spec.task, attempted, promoteFailedBlockForReview);
    }

    /** The controller on one block, with what is left of the budget, as a step of the search `whole`. */
    method TryBlock(spec: TaskSpec, block: RepairBlockCandidate, index: nat, remaining: nat, ghost tried: seq<string>,
                    ghost bench: Bench, ghost space: SearchSpace, ghost whole: SearchResult)
        returns (result: TaskReport, counts: TraceCounts)
      requires controller.client.Valid()
      requires index < |space.Blocks()| && block == space.Blocks()[index] && space.task == spec.task
      requires remaining == if spec.maxValidations > |tried| then spec.maxValidations - |tried| else 0
      requires spec.task.sourceStateId.Some? ==>
        && spec.task.sourceStateId.value in controller.client.live && bench == controller.BenchFor(spec.task)
        && space.generate == controller.generate && controller.clock == space.clock + index
        && space.Remains(bench, whole, tried, index, spec.maxValidations)
      modifies controller`clock, controller.client
      ensures controller.client.Valid() && controller.client.Grows() && controller.client.KeepsLive()
      ensures controller.client.executions == old(controller.client.executions) + |result.attemptedCandidates|
      ensures counts.proposals == counts.validations == |result.attemptedCandidates|
      ensures spec.task.sourceStateId.None? ==>
        result == FailedReport(spec.task.taskId, ValidationResult(FailedContract, MissingSourceState), [])
      ensures spec.task.sourceStateId.Some? ==>
        && controller.clock == old(controller.clock) + 1
        && Stepped(space, bench, whole, tried, index, spec.maxValidations, result)
    {
      result, counts := RunBlock(spec, block, index, remaining, space);
      if spec.task.sourceStateId.Some? {
        StepOfSearch(space, bench, whole, tried, index, spec.maxValidations, result);
      }
    }

    method RunBlock(spec: TaskSpec, block: RepairBlockCandidate, index: nat, remaining: nat, ghost space: SearchSpace)
        returns (result: TaskReport, counts: TraceCounts)
      requires controller.client.Valid()
      requires index < |space.Blocks()| && block == space.Blocks()[index] && space.task == spec.task
      requires spec.task.sourceStateId.Some? ==>
        && spec.task.sourceStateId.value in controller.client.live
        && space.generate == controller.generate && controller.clock == space.clock + index
      modifies controller`clock, controller.client
      ensures controller.client.Valid() && controller.client.Grows() && controller.client.KeepsLive()
      ensures controller.client.executions == old(controller.client.executions) + |result.attemptedCandidates|
      ensures counts.proposals == counts.validations == |result.attemptedCandidates|
      ensures spec.task.sourceStateId.None? ==>
        result == FailedReport(spec.task.taskId, ValidationResult(FailedContract, MissingSourceState), [])
      ensures spec.task.sourceStateId.Some? ==>
        var bench := old(controller.BenchFor(spec.task));
        && controller.clock == old(controller.clock) + 1
        && result == BlockReport(spec.task.taskId, Search(bench, space.BlockAt(index), remaining), bench)
    {
      var task := Effective(spec.task, block);
      ghost var trials := BlockTrials(index, block, controller.generate(controller.clock, task));
      if spec.task.sourceStateId.Some? {
        assert controller.BenchFor(task) == controller.BenchFor(spec.task) && trials == space.BlockAt(index);
      }
      result, counts := controller.RunWithSource(TaskSpec(task, block.blockContract, remaining), AutoCandidateSource,
                                                 index, block);
    }
  }

  /** A repair that passed validation from the anchor moves the first failure of the theory past the
      command it stands for, whatever block kind it was validated as. */
  lemma PassedRepairMovesOn(theory: PatchedTheory, cursor: int, bench: Bench, kind: BlockKind, entry: PatchEntry)
    requires 0 <= theory.header <= cursor && cursor + 1 < |theory.commands|
    requires DistinctLinesFrom(theory.commands, theory.header + 1)
    requires bench.exec == theory.exec && theory.Replay(cursor) == Some(bench.state)
    requires entry.line == theory.commands[cursor + 1].line && entry.text != ""
    requires bench.Verdict(kind, entry.text).status.Passed?
    ensures var patched := theory.(entries := theory.entries + [entry]);
            && patched.Replay(cursor + 1).Some?
            && patched.FirstFailure(theory.header + 1) > cursor + 1
  {
    bench.PassedMeansExecuted(kind, entry.text);
    RepairMovesOn(theory, cursor, bench.state, entry);
  }

  /** Every report that brings an accepted repair brings a text that works where the task starts, so a run
      with this engine moves on whenever the engine finds something and the gate allows it. */
  lemma AcceptedReportsExecute(task: LocalizedTask, trials: seq<Trial>, budget: int, bench: Bench, promote: bool)
    requires EngineReport(task, Search(bench, trials, budget), bench, promote).outcome.Accepted?
    ensures var report := EngineReport(task, Search(bench, trials, budget), bench, promote);
            && report.taskId == task.taskId && report.artifactKind == Some(Repair) && report.artifactText.Some?
            && bench.exec(bench.state, report.artifactText.value).Executed?
            && exists k :: 0 <= k < |trials| && trials[k].text == report.artifactText.value
  {
    SearchIsFirstPassing(bench, trials, budget);
    var r := Search(bench, trials, budget);
    var w := trials[|r.attempted| - 1];
    bench.PassedMeansExecuted(w.block.blockKind, w.text);
  }

  /** The candidate works in the source state and makes the proof level smaller; for a theorem shell it has to
      leave the proof altogether. */
  predicate Closes(bench: Bench, trial: Trial) {
    match bench.exec(bench.state, trial.text)
    case Rejected(_) => false
    case Executed(next) =>
      && next.proofLevel < bench.state.proofLevel
      && (trial.block.blockKind.TheoremShellBlock? ==> next.proofLevel == 0 && !next.mode.Proof?)
  }

  /** For the block kinds of the localizer's tasks, tried at the proof level of their state, passing is closing. */
  lemma PassingIsClosing(bench: Bench, trial: Trial)
    requires bench.entryLevel == bench.state.proofLevel && trial.block in DEFAULT_FALLBACKS
    ensures bench.Passes(trial) <==> Closes(bench, trial)
  {
  }

  lemma {:induction false} TrialsKeepBlocks(space: SearchSpace, depth: nat, k: nat)
    requires depth <= |space.Blocks()| && k < |space.TrialsFrom(depth)|
    ensures space.TrialsFrom(depth)[k].block in space.Blocks()
    decreases |space.Blocks()| - depth
  {
    var here := space.BlockAt(depth);
    if k >= |here| { TrialsKeepBlocks(space, depth + 1, k - |here|); }
  }

  /** When the engine finds a repair for a task of the localizer: exactly if some candidate that the budget
      covers closes a proof level. So it never does for a task at proof level 0, whatever the generator
      proposes and the prover accepts. */
  lemma {:induction false} LocalizedTaskRepairable(space: SearchSpace, bench: Bench, budget: int)
    requires space.task.fallbackCandidates == DEFAULT_FALLBACKS && bench.entryLevel == bench.state.proofLevel
    ensures
      var trials := space.TrialsFrom(0);
      Search(bench, trials, budget).winner.Some? <==>
      exists k :: 0 <= k < Window(|trials|, budget) && Closes(bench, trials[k])
    ensures bench.state.proofLevel == 0 ==> Search(bench, space.TrialsFrom(0), budget).winner.None?
  {
    var trials := space.TrialsFrom(0);
    SearchFindsIffSomePasses(bench, trials, budget);
    forall k | 0 <= k < Window(|trials|, budget)
      ensures bench.Passes(trials[k]) <==> Closes(bench, trials[k])
    {
      TrialsKeepBlocks(space, 0, k);
      PassingIsClosing(bench, trials[k]);
    }
  }
}
