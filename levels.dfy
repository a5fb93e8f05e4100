/**
 * Severities of qdiilog 2.2.1 and the process-wide threshold gate.
 *
 * `Loglevel` is the scoped enumeration of the header; its declaration order
 * (debug, trace, info, warning, error, disable) is the order the gate uses.
 */
module Loglevels {

  datatype Loglevel = Debug | Trace | Info | Warning | Error | Disable

  /** Position in the enumeration, i.e. the value of the scoped enum. */
  function Rank(l: Loglevel): (r: nat)
    ensures r <= 5
    ensures r == 5 <==> l == Disable
  {
    match l
    case Debug => 0
    case Trace => 1
    case Info => 2
    case Warning => 3
    case Error => 4
    case Disable => 5
  }

  /** The case label the switch of `isGranularityOk` falls through to next. */
  function FallsInto(l: Loglevel): Loglevel
    requires l != Debug && l != Disable
  {
    match l
    case Trace => Debug
    case Info => Trace
    case Warning => Info
    case Error => Warning
  }

  /**
   * `Logger<level>::isGranularityOk` for the current threshold: the switch on
   * the logger's own level starts at that case and falls through every lower
   * case, or-ing in "threshold equals this case"; `disable` answers false.
   */
  function GranularityOk(level: Loglevel, threshold: Loglevel): bool
    decreases Rank(level)
  {
    match level
    case Disable => false
    case Debug => threshold == Debug
    case _ => threshold == level || GranularityOk(FallsInto(level), threshold)
  }

  /**
   * The gate admits a statement exactly when the threshold is not `disable`
   * and the logger's level is at least the threshold.
   */
  lemma {:induction false} GranularityOkIff(level: Loglevel, threshold: Loglevel)
    ensures GranularityOk(level, threshold)
        <==> threshold != Disable && level != Disable && Rank(threshold) <= Rank(level)
    decreases Rank(level)
  {
    match level
    case Disable =>
    case Debug =>
    case _ => GranularityOkIff(FallsInto(level), threshold);
  }

  /** Lowering the threshold never silences a level that was admitted. */
  lemma GranularityMonotoneInThreshold(level: Loglevel, t1: Loglevel, t2: Loglevel)
    requires t2 != Disable && Rank(t2) <= Rank(t1)
    requires GranularityOk(level, t1)
    ensures GranularityOk(level, t2)
  {
    GranularityOkIff(level, t1);
    GranularityOkIff(level, t2);
  }

  /** Raising a logger's level never silences it. */
  lemma GranularityMonotoneInLevel(l1: Loglevel, l2: Loglevel, threshold: Loglevel)
    requires l2 != Disable && Rank(l1) <= Rank(l2)
    requires GranularityOk(l1, threshold)
    ensures GranularityOk(l2, threshold)
  {
    GranularityOkIff(l1, threshold);
    GranularityOkIff(l2, threshold);
  }

  /** `setLogLevel(Loglevel::disable)` silences every level, error included. */
  lemma DisableSilencesAll(level: Loglevel)
    ensures !GranularityOk(level, Disable)
  {
    GranularityOkIff(level, Disable);
  }

  /** `setLogLevel(Loglevel::warning)` lets through warning and error only. */
  lemma WarningThreshold(level: Loglevel)
    ensures GranularityOk(level, Warning) <==> level == Warning || level == Error
  {
    GranularityOkIff(level, Warning);
  }
}
