/** Defense modes, the actions each permits, and the mode an assessment earns (defense_authority.py). */
module DefenseAuthority {
  import opened CutPoints

  datatype DefenseMode = GUARD | COMBAT | SIEGE

  /** `_MODE_RANK`. */
  function Rank(mode: DefenseMode): nat {
    match mode
    case GUARD => 0
    case COMBAT => 1
    case SIEGE => 2
  }

  const GUARD_ACTIONS := [OBSERVE, COLLECT_EVIDENCE, BLOCK_IOC]

  const COMBAT_ACTIONS := GUARD_ACTIONS + [
    REVOKE_CREDENTIAL, TERMINATE_SESSION, KILL_PROCESS, ISOLATE_ENDPOINT, QUARANTINE_WORKLOAD, PAUSE_PIPELINE,
    FREEZE_SIGNER, HOLD_TRANSACTION, ISOLATE_MICROSEGMENT, BGP_BLACKHOLE_ROUTE, DIVERT_FLOWSPEC_SCRUBBING,
    PAUSE_PROTOCOL_CONTRACT]

  const SIEGE_ACTIONS := COMBAT_ACTIONS + [ENABLE_EMERGENCY_POLICY, LOCK_HSM_PARTITION, TRIGGER_AIRGAP_ISOLATION]

  function ActionsOf(mode: DefenseMode): seq<DefenseAction> {
    match mode
    case GUARD => GUARD_ACTIONS
    case COMBAT => COMBAT_ACTIONS
    case SIEGE => SIEGE_ACTIONS
  }

  /** `action_permitted_in_mode`. */
  predicate Permitted(mode: DefenseMode, action: DefenseAction) {
    action in ActionsOf(mode)
  }

  datatype Assessment = Assessment(
    confidence: real, evidenceCount: nat, criticalAtRisk: bool, activeProgression: bool, blastRadius: real,
    evidenceGap: bool)

  datatype Decision = Decision(mode: DefenseMode, permitted: seq<DefenseAction>)

  /** `decide_defense_mode`, without its rationale texts. */
  function DecideMode(a: Assessment): Decision {
    if a.confidence >= 0.95 && a.activeProgression && a.criticalAtRisk && a.blastRadius >= 0.7
      && a.evidenceCount >= 2 then
      Decision(SIEGE, SIEGE_ACTIONS)
    else if a.confidence >= 0.8 && a.evidenceCount >= 2 && (a.activeProgression || a.criticalAtRisk) then
      Decision(COMBAT, COMBAT_ACTIONS)
    else
      Decision(GUARD, GUARD_ACTIONS)
  }

  /** A higher mode permits everything a lower one does. */
  lemma PermissionsGrow(a: DefenseMode, b: DefenseMode, action: DefenseAction)
    requires Rank(a) <= Rank(b) && Permitted(a, action)
    ensures Permitted(b, action)
  {
    assert forall x :: x in GUARD_ACTIONS ==> x in COMBAT_ACTIONS;
    assert forall x :: x in COMBAT_ACTIONS ==> x in SIEGE_ACTIONS;
  }

  /** At least as much confidence, evidence, progression, risk and blast radius. */
  predicate AtLeastAsSevere(b: Assessment, a: Assessment) {
    && a.confidence <= b.confidence && a.evidenceCount <= b.evidenceCount && a.blastRadius <= b.blastRadius
    && (a.criticalAtRisk ==> b.criticalAtRisk) && (a.activeProgression ==> b.activeProgression)
  }

  /** A more severe assessment never earns a lower mode, so it permits no fewer actions. */
  lemma DecisionIsMonotone(a: Assessment, b: Assessment, action: DefenseAction)
    requires AtLeastAsSevere(b, a)
    ensures Rank(DecideMode(a).mode) <= Rank(DecideMode(b).mode)
    ensures action in DecideMode(a).permitted ==> action in DecideMode(b).permitted
  {
    if action in DecideMode(a).permitted {
      PermissionsGrow(DecideMode(a).mode, DecideMode(b).mode, action);
    }
  }
}
