/**
 What a clock reading calls for: internal/clock/decide.go, the reading of internal/clock/service.go
 `Poll`, and the predicates of internal/clock/platform.go. Times are milliseconds.
 */
module Clock {
  import opened Model
  import opened Decimal

  const VERDICT_IN_SYNC := "in_sync"
  const VERDICT_MONITOR_WRONG := "monitor_clock_wrong"
  const VERDICT_HOST_WRONG := "host_clock_wrong"
  const REASON_NTS_UNREACHABLE := "nts_unreachable"
  const TOLERANCE := 10_000
  const MAX_FAILED_POLLS := 2

  // ----- the platform's list -----

  datatype Enclave = Enclave(id: string, kind: string, configVersion: int, configCurrent: int, configKnown: bool, quarantined: bool)

  function Lower(c: char): char { if 'A' <= c <= 'Z' then (c as int + 32) as char else c }

  function Lowered(s: string): string { seq(|s|, i requires 0 <= i < |s| => Lower(s[i])) }

  predicate IsVault(e: Enclave) { Lowered(e.kind) == "vault" }

  /** The runtime acknowledged the current clock config: the only ones the monitor may quarantine. */
  predicate Armed(e: Enclave) { e.configKnown && e.configCurrent > 0 && e.configVersion >= e.configCurrent }

  predicate NeverConfigured(e: Enclave) { e.configKnown && e.configVersion == 0 }

  // ----- a reading -----

  datatype Outcome = Answered | Unreachable | Unverified | Refused | Invalid

  datatype Reply = Reply(enclave: string, hostMs: int, trustedMs: int, flagged: bool, reason: string, verdict: string, configKey: string)

  /** How one exchange with a runtime ended. */
  datatype Exchange =
    | NoAnswer(error: string)
    | NotAttested(error: string)
    | Response(status: int, body: string, reply: Option<Reply>)

  datatype Reading = Reading(
    outcome: Outcome, status: int, error: string, hostMs: int, trustedMs: int, flagged: bool, reason: string,
    verdict: string, configKey: string, driftMs: int, monitorMs: int)

  /** How far the host is ahead of the moment half way between sending and receiving. */
  function Drift(hostMs: int, sentMs: int, receivedMs: int): int { hostMs - (sentMs + Quo(receivedMs - sentMs, 2)) }

  function ReadingOf(x: Exchange, id: string, sentMs: int, receivedMs: int): Reading {
    var blank := Reading(Invalid, 0, "", 0, 0, false, "", "", "", 0, receivedMs);
    match x
    case NoAnswer(error) => blank.(outcome := Unreachable, error := error)
    case NotAttested(error) => blank.(outcome := Unverified, error := error)
    case Response(status, body, reply) =>
      if status != 200 then blank.(outcome := Refused, status := status, error := body)
      else if reply.None? then blank.(status := status, error := "the answer did not parse: " + body)
      else if reply.value.enclave != id then blank.(status := status, error := "the answer is about another enclave")
      else
        var rep := reply.value;
        Reading(Answered, status, "", rep.hostMs, rep.trustedMs, rep.flagged, rep.reason, rep.verdict, rep.configKey,
          Drift(rep.hostMs, sentMs, receivedMs), receivedMs)
  }

  // ----- the rules -----

  function Abs(v: int): nat { if v < 0 then -v else v }

  datatype Problem = HostClockWrong | NoTrustedTime | Frozen | Drifted

  /** Why an answered reading calls for a quarantine, if it does. */
  function ClockProblem(r: Reading): Option<Problem> {
    if r.verdict == VERDICT_HOST_WRONG then Some(HostClockWrong)
    else if r.verdict == VERDICT_MONITOR_WRONG then None
    else if r.trustedMs == 0 || r.reason == REASON_NTS_UNREACHABLE then Some(NoTrustedTime)
    else if r.flagged then Some(Frozen)
    else if Abs(r.driftMs) > TOLERANCE then Some(Drifted)
    else None
  }

  /** The runtime does not hold this monitor's key. */
  predicate ConfigMissing(r: Reading, key: string) {
    (r.outcome == Answered && r.configKey != key) || (r.outcome == Refused && (r.status == 409 || r.status == 401))
  }

  predicate HasAt(s: string, p: string, i: int) { 0 <= i <= |s| - |p| && s[i..i + |p|] == p }

  predicate Contains(s: string, p: string) { exists i | 0 <= i <= |s| - |p| :: HasAt(s, p, i) }

  /** The runtime refused the floor because it cannot establish its time. */
  predicate FailedClosed(r: Reading) { r.outcome == Refused && r.status == 503 && !Contains(Lowered(r.error), "not enabled") }

  predicate Clean(r: Reading) {
    r.outcome == Answered && r.verdict == VERDICT_IN_SYNC && !r.flagged && r.trustedMs != 0 && Abs(r.driftMs) <= TOLERANCE
  }

  datatype Cause = Found(problem: Problem) | Closed | Silent(polls: int) | WasFlagged | BackInSync | NeverAcknowledged

  datatype Decision = Nothing | Quarantine(cause: Cause) | Release(cause: Cause)

  /** The enclave's stored position. */
  datatype Position = Position(
    lastOutcome: Option<Outcome>, lastMs: int, lastOKMs: int, lastVerdict: string, lastFlagged: bool, lastReason: string,
    lastDriftMs: int, configMissing: bool, failedPolls: int, quarantined: bool)

  const NO_POSITION := Position(None, 0, 0, "", false, "", 0, false, 0, false)

  function Decide(prev: Position, r: Reading, shown: bool, key: string): Decision {
    var ours := prev.quarantined;
    if r.outcome == Answered then
      if ClockProblem(r).Some? then
        if ours || shown then Nothing else Quarantine(Found(ClockProblem(r).value))
      else if ours && Clean(r) then Release(BackInSync)
      else Nothing
    else if ConfigMissing(r, key) then Nothing
    else if FailedClosed(r) && !ours && !shown then Quarantine(Closed)
    else if r.outcome == Unreachable && prev.failedPolls + 1 >= MAX_FAILED_POLLS && !ours && !shown then
      Quarantine(Silent(prev.failedPolls + 1))
    else if prev.lastFlagged && !ours && !shown then Quarantine(WasFlagged)
    else Nothing
  }

  /** The position after a reading; `shown` is whether the platform lists the enclave as quarantined. */
  function Advance(prev: Position, r: Reading, key: string, shown: bool): Position {
    var seen := prev.(lastOutcome := Some(r.outcome), lastMs := r.monitorMs,
                      failedPolls := if r.outcome == Unreachable then prev.failedPolls + 1 else 0,
                      quarantined := prev.quarantined && shown);
    var told := if r.outcome == Answered || r.outcome == Refused then seen.(configMissing := ConfigMissing(r, key)) else seen;
    if r.outcome == Answered then
      told.(lastOKMs := r.monitorMs, lastVerdict := r.verdict, lastFlagged := r.flagged, lastReason := r.reason,
            lastDriftMs := r.driftMs)
    else told
  }

  // ----- alerts on a runtime that is not quarantined -----

  datatype AlertEvents = AlertEvents(clockWrong: string, unreachable: string, back: string)

  const VAULT_EVENTS := AlertEvents("clock.vault_host_clock_wrong", "clock.vault_unreachable", "clock.vault_recovered")
  const UNCONFIGURED_EVENTS :=
    AlertEvents("clock.unconfigured_clock_wrong", "clock.unconfigured_unreachable", "clock.unconfigured_recovered")

  /** The alert to raise, or nothing; `standing` is the alert in force, empty for none. */
  function DecideAlert(ev: AlertEvents, prev: Position, r: Reading, standing: string, key: string): string {
    if r.outcome == Answered then
      if ClockProblem(r).Some? then Raise(ev.clockWrong, standing)
      else if standing != "" && Clean(r) then ev.back
      else ""
    else if ConfigMissing(r, key) then ""
    else if FailedClosed(r) then Raise(ev.clockWrong, standing)
    else if r.outcome == Unreachable && prev.failedPolls + 1 >= MAX_FAILED_POLLS then Raise(ev.unreachable, standing)
    else ""
  }

  function Raise(event: string, standing: string): string { if event == standing then "" else event }

  // ----- the drift -----

  /** The drift of an honest host over a symmetric round trip is its clock's error, less half of what
      the second leg took longer. */
  lemma DriftIsError(error: int, sentMs: int, oneWayMs: nat, skew: nat)
    ensures var received := sentMs + 2 * oneWayMs + skew;
            var host := sentMs + oneWayMs + error;
            2 * Abs(Drift(host, sentMs, received) - error) <= skew
  {}
}
