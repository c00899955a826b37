/** The order's deprovisioning lifecycle (packages/models/schemas/Lifecycle.ts). */
module Lifecycle {

  datatype LifecycleState = Active | Suspended | TornDown

  datatype LifecycleAction = Suspend | Resume | Teardown

  function TargetOf(action: LifecycleAction): LifecycleState {
    match action
    case Suspend => Suspended
    case Resume => Active
    case Teardown => TornDown
  }

  function Transitions(from: LifecycleState): set<LifecycleState> {
    match from
    case Active => {Suspended, TornDown}
    case Suspended => {Active, TornDown}
    case TornDown => {}
  }

  predicate CanTransition(from: LifecycleState, to: LifecycleState) {
    from == to || to in Transitions(from)
  }
}
