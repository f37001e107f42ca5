/** The table of allowed request phase transitions. */
module StateMachine {
  import opened Api

  const INITIAL_PHASE := PhasePending

  function Transitions(p: Phase): set<Phase> {
    match p
    case PhaseNone => {PhasePending, PhaseValidating}
    case PhasePending => {PhaseValidating, PhaseCancelled, PhaseFailed}
    case PhaseValidating =>
      {PhaseAwaitingApproval, PhasePlanned, PhaseBlocked, PhaseCompleted, PhaseFailed, PhaseCancelled}
    case PhaseAwaitingApproval => {PhasePlanned, PhaseExecuting, PhasePaused, PhaseCancelled, PhaseFailed}
    case PhasePlanned => {PhaseExecuting, PhasePaused, PhaseBlocked, PhaseCompleted, PhaseCancelled, PhaseFailed}
    case PhaseExecuting =>
      {PhaseAwaitingApproval, PhasePaused, PhaseBlocked, PhaseCompleted, PhaseFailed, PhaseCancelled}
    case PhasePaused =>
      {PhaseExecuting, PhasePlanned, PhaseValidating, PhaseAwaitingApproval, PhaseCancelled, PhaseFailed}
    case PhaseBlocked =>
      {PhaseValidating, PhasePlanned, PhaseExecuting, PhasePaused, PhaseCompleted, PhaseFailed, PhaseCancelled}
    case PhaseCompleted => {}
    case PhaseFailed => {}
    case PhaseCancelled => {}
  }

  predicate IsTerminal(p: Phase) {
    p in {PhaseCompleted, PhaseFailed, PhaseCancelled}
  }

  predicate CanTransition(src: Phase, dst: Phase) {
    src == dst || dst in Transitions(src)
  }

  /** Each phase of the sequence may follow the one before it, starting from src. */
  ghost predicate Walk(src: Phase, steps: seq<Phase>)
    decreases |steps|
  {
    steps != [] ==> CanTransition(src, steps[0]) && Walk(steps[0], steps[1..])
  }

  /** Exactly the three terminal phases have no way out, and they are never entered from one another. */
  lemma TerminalIsAbsorbing(p: Phase)
    ensures IsTerminal(p) <==> forall q :: CanTransition(p, q) ==> q == p
  {
    if !IsTerminal(p) {
      if p == PhaseNone {
        assert CanTransition(p, PhasePending);
      } else {
        assert CanTransition(p, PhaseFailed);
      }
    }
  }
}
