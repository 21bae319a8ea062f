/** Prover states and execution results, as the server and its clients share them. */
module ProverStates {
  import opened RepairModel

  /** A prover state. States are immutable values; `context` stands for everything a client cannot see. */
  datatype ToplevelState = ToplevelState(mode: StateMode, proofLevel: nat, context: int)

  datatype ExecOutcome = Executed(state: ToplevelState) | Rejected(timedOut: bool)

  datatype ExecStatus = Success | ProofComplete | Error | Timeout

  datatype StateResult = StateResult(stateId: StateId, status: ExecStatus, mode: StateMode, proofLevel: nat) {
    predicate IsSuccess() {
      status.Success? || status.ProofComplete?
    }
  }

  function After(source: ToplevelState, outcome: ExecOutcome): ToplevelState {
    match outcome
    case Executed(state) => state
    case Rejected(_) => source
  }

  function Result(id: StateId, source: ToplevelState, outcome: ExecOutcome): StateResult {
    match outcome
    case Executed(state) =>
      StateResult(id, if source.proofLevel > 0 && state.proofLevel == 0 then ProofComplete else Success,
                  state.mode, state.proofLevel)
    case Rejected(timedOut) =>
      StateResult(id, if timedOut then Timeout else Error, source.mode, source.proofLevel)
  }
}
