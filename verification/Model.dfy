/**
 The values internal/model/domain.go and internal/model/report.go share: verdicts, folded
 readings and the rollup rules.
 */
module Model {

  datatype Option<+T> = None | Some(value: T)

  datatype Verdict = Up | Degraded | Down | Error

  const ROLLUP_ALL := "all"
  const ROLLUP_ANY := "any"
  const ROLLUP_MAJORITY := "majority"

  /** A folded interval of readings for one monitor. */
  datatype Bucket = Bucket(
    monitor: string,
    component: string,
    start: int,
    width: int,
    up: int,
    degraded: int,
    down: int,
    errors: int,
    maintenance: int,
    latencyP95: int,
    verdict: Verdict)
}
