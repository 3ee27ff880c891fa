/** The four service tiers and the ranks that order them. */
module Tiers {
  datatype Level = SystemCores | DedicatedCores | SharedCores | ReclaimedCores

  function LevelName(level: Level): string {
    match level
    case SystemCores => "system_cores"
    case DedicatedCores => "dedicated_cores"
    case SharedCores => "shared_cores"
    case ReclaimedCores => "reclaimed_cores"
  }

  datatype Option<+T> = None | Some(value: T)

  /** The known level a string names, if any. */
  function ParseLevel(s: string): Option<Level> {
    if s == "system_cores" then Some(SystemCores)
    else if s == "dedicated_cores" then Some(DedicatedCores)
    else if s == "shared_cores" then Some(SharedCores)
    else if s == "reclaimed_cores" then Some(ReclaimedCores)
    else None
  }

  /** The highest rank is evicted first. */
  function EvictionRank(level: Level): nat {
    match level
    case ReclaimedCores => 3
    case SharedCores => 2
    case DedicatedCores => 1
    case SystemCores => 0
  }

  predicate Evictable(level: Level) {
    level != SystemCores
  }

  /** How stressed a node is; `Unset` is the empty level of a verdict never made. */
  datatype PressureLevel = Unset | NoPressure | Moderate | Critical

  function Severity(p: PressureLevel): nat {
    match p
    case Unset => 0
    case NoPressure => 1
    case Moderate => 2
    case Critical => 3
  }
}
