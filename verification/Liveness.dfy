/** The kill ladder and the heartbeat fast-paths of internal/liveness. */
module Liveness {
  datatype AgentHealth = HealthOK | Zombie | StdinBlock | CPUSpin | OOM | HungChild | HealthUnknown
  datatype Rung1Class = Working | Frozen | Spinning | Rung1Unknown
  datatype Rung2Verdict = Converging | Stalled | Abstain
  datatype Rung3State = Rung3State(softCrossed: bool, absoluteCap: bool, heartbeatStale: bool)
  datatype RungSet = RungSet(
    health: AgentHealth, rung1: Rung1Class, rung2: Rung2Verdict, rung3: Rung3State, circuitBreakerTripped: bool)
  datatype KillDecision = KillDecision(kill: bool, unilateral: bool)

  predicate Rung0Suspect(h: AgentHealth) {
    (h == StdinBlock || h == CPUSpin || h == OOM || h == HungChild)
  }

  predicate Rung1Suspect(c: Rung1Class, h: AgentHealth) {
    match c
    case Spinning => true
    case Frozen => h != HealthOK && h != HealthUnknown
    case _ => false
  }

  function EvaluateKill(rs: RungSet): KillDecision {
    var rung2Stalled := rs.rung2 == Stalled;
    if rs.rung3.absoluteCap then KillDecision(true, true)
    else if rs.rung3.heartbeatStale then KillDecision(true, true)
    else if rs.circuitBreakerTripped then KillDecision(false, false)
    else if rs.rung3.softCrossed then
      KillDecision(rung2Stalled || Rung1Suspect(rs.rung1, rs.health) || Rung0Suspect(rs.health), false)
    else if rung2Stalled && (Rung1Suspect(rs.rung1, rs.health) || Rung0Suspect(rs.health)) then
      KillDecision(true, false)
    else KillDecision(false, false)
  }

  datatype FastPath = FastPathNone | FastPathCancel | FastPathFailed

  function EvaluateFastPath(health: AgentHealth, awaitingInput: bool, exited: bool): FastPath {
    if exited || health == Zombie then FastPathFailed
    else if awaitingInput then FastPathCancel
    else FastPathNone
  }

  /** The runner itself looks unwell: it spins, it is frozen in known bad health, or its health names
      what it hangs on. */
  predicate Suspect(rs: RungSet) {
    || rs.rung1 == Spinning
    || (rs.rung1 == Frozen && rs.health !in {HealthOK, HealthUnknown})
    || rs.health in {StdinBlock, CPUSpin, OOM, HungChild}
  }

  /** The softer signals: the soft deadline, no convergence, a suspect runner. */
  function Signals(rs: RungSet): nat {
    (if rs.rung3.softCrossed then 1 else 0) + (if rs.rung2 == Stalled then 1 else 0) + (if Suspect(rs) then 1 else 0)
  }

  /** A lease is killed on the wall clock alone - cap reached or silence - or, unless the fleet's
      breaker is tripped, on two of the three softer signals; no single one suffices. */
  lemma TwoRungsKill(rs: RungSet)
    ensures var clock := rs.rung3.absoluteCap || rs.rung3.heartbeatStale;
      && (EvaluateKill(rs).kill <==> clock || (!rs.circuitBreakerTripped && Signals(rs) >= 2))
      && (EvaluateKill(rs).unilateral <==> clock)
  {
  }
}
