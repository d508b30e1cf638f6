/** internal/controller/targets.go: what a target kind's level means and where its baseline is kept. */
module TargetKinds {
  import opened Text

  datatype Kind = Deployment | StatefulSet | CronJob | Node | OtherKind(name: string)

  /** The kinds with a handler. */
  predicate Handled(kind: Kind) { !kind.OtherKind? }

  predicate Scalable(kind: Kind) { kind.Deployment? || kind.StatefulSet? }

  predicate ClusterScoped(kind: Kind) { kind.Node? }

  const PREFIX := "reactor.robbeverhelst.com/"
  const BASELINE_REPLICAS := PREFIX + "baseline-replicas"
  const BASELINE_SUSPEND := PREFIX + "baseline-suspend"
  const BASELINE_UNSCHEDULABLE := PREFIX + "baseline-unschedulable"
  const CLAIMED_BY := PREFIX + "claimed-by"
  const CLAIMED_AT := PREFIX + "claimed-at"

  /** The mark of a claim: a release leaves none of these behind. */
  const CLAIM_ANNOTATIONS: set<string> :=
    {BASELINE_REPLICAS, BASELINE_SUSPEND, BASELINE_UNSCHEDULABLE, CLAIMED_BY, CLAIMED_AT}

  const LEVEL_SET := 0
  const LEVEL_CLEAR := 1

  function LevelOfFlag(flag: bool): int { if flag then LEVEL_SET else LEVEL_CLEAR }

  function BaselineKey(kind: Kind): string
    requires Handled(kind)
  {
    match kind
    case Deployment => BASELINE_REPLICAS
    case StatefulSet => BASELINE_REPLICAS
    case CronJob => BASELINE_SUSPEND
    case Node => BASELINE_UNSCHEDULABLE
  }

  lemma AnnotationsDiffer()
    ensures |CLAIM_ANNOTATIONS| == 5
    ensures CLAIMED_BY !in {BASELINE_REPLICAS, BASELINE_SUSPEND, BASELINE_UNSCHEDULABLE, CLAIMED_AT}
    ensures CLAIMED_AT !in {BASELINE_REPLICAS, BASELINE_SUSPEND, BASELINE_UNSCHEDULABLE}
  {
    assert BASELINE_REPLICAS[|PREFIX|] == 'b' && BASELINE_SUSPEND[|PREFIX|] == 'b';
    assert BASELINE_UNSCHEDULABLE[|PREFIX|] == 'b';
    assert CLAIMED_BY[|PREFIX|] == 'c' && CLAIMED_AT[|PREFIX|] == 'c';
    assert CLAIMED_BY[|PREFIX| + 8] == 'b' && CLAIMED_AT[|PREFIX| + 8] == 'a';
    assert BASELINE_REPLICAS[|PREFIX| + 9] == 'r' && BASELINE_SUSPEND[|PREFIX| + 9] == 's'
      && BASELINE_UNSCHEDULABLE[|PREFIX| + 9] == 'u';
  }

  /** The range a replica count or an action's level has on the wire. */
  predicate Fits(level: int) { -0x8000_0000 <= level < 0x8000_0000 }

  /** A level an object of this kind can hold: a count, or one of the two switch positions. */
  predicate Holds(kind: Kind, level: int) {
    if Scalable(kind) then Fits(level) else level == LEVEL_SET || level == LEVEL_CLEAR
  }

  /** The level a write of `level` leaves: a switch is set by 0 and cleared by anything else. */
  function Written(kind: Kind, level: int): int {
    if Scalable(kind) then level else LevelOfFlag(level == LEVEL_SET)
  }

  function FormatBool(flag: bool): string { if flag then "true" else "false" }

  function ParseBool(raw: string): Option<bool> {
    if raw in ["1", "t", "T", "TRUE", "true", "True"] then Some(true)
    else if raw in ["0", "f", "F", "FALSE", "false", "False"] then Some(false)
    else None
  }

  function Format(kind: Kind, level: int): string {
    if Scalable(kind) then FormatInt(level) else FormatBool(level == LEVEL_SET)
  }

  function Parse(kind: Kind, raw: string): Option<int> {
    if Scalable(kind) then
      var parsed := ParseInt32(raw);
      if parsed.None? then None else Some(parsed.value as int)
    else
      var flag := ParseBool(raw);
      if flag.None? then None else Some(LevelOfFlag(flag.value))
  }

  /** What was recorded is what is read back, for every level a target of the kind can hold. */
  lemma BaselineRoundTrip(kind: Kind, level: int)
    requires Holds(kind, level)
    ensures Parse(kind, Format(kind, level)) == Some(level)
  {
    if Scalable(kind) {
      ParseUndoesFormat(level);
    }
  }

  /** Whatever an annotation says, a baseline read from it is a level the target can hold. */
  lemma ParsedHolds(kind: Kind, raw: string)
    ensures Parse(kind, raw).Some? ==> Holds(kind, Parse(kind, raw).value) && Fits(Parse(kind, raw).value)
  {
  }

  function Describe(kind: Kind, level: int): string {
    if Scalable(kind) then FormatInt(level) + " replicas"
    else if kind.CronJob? then (if level == LEVEL_SET then "suspended" else "running")
    else if level == LEVEL_SET then "cordoned" else "schedulable"
  }
}
