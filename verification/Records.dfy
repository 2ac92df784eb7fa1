/** src/enclave/scoring/records.py: what one evaluated instance contributes to a score. */
module Records {
  import opened Wrappers

  datatype Verdict = PASS | FAIL | NO_DECISION

  datatype Outcome =
    | SOLVED
    | UNSOLVED | CAP_EXHAUSTED | TIMEOUT | CRASHED | PROTOCOL_VIOLATION | GRADER_TAMPERED
    | RELAY_UNAVAILABLE | PROVIDER_ERROR | ENVIRONMENT_FAULT | EVIDENCE_UNREOPENABLE
  {
    predicate InfrastructureFault() {
      this in {RELAY_UNAVAILABLE, PROVIDER_ERROR, ENVIRONMENT_FAULT, EVIDENCE_UNREOPENABLE}
    }

    function Verdict(): Verdict {
      if SOLVED? then PASS
      else if InfrastructureFault() then NO_DECISION
      else FAIL
    }
  }

  datatype InstanceRecord = InstanceRecord(
    instanceId: string, outcome: Outcome, spend: real,
    audited: bool, auditPassed: Option<bool>)
  {
    predicate Solved() { outcome.SOLVED? }
    predicate Scoreable() { outcome.Verdict() != NO_DECISION }
    predicate FailedAudit() { audited && auditPassed == Some(false) }
  }

  /** What the record's constructor enforces. */
  predicate ValidRecord(r: InstanceRecord) {
    r.spend >= 0.0 && (r.audited <==> r.auditPassed.Some?)
  }
}
