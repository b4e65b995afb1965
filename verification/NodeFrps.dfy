/** The FRPS service of a node as its callers see it, one whole call at a time; what happens within
    a call is `FrpsRuntime`. */
module NodeFrps {
  import opened Outcomes

  /** A wanted FRPS configuration: its hash, and whether the service is to run. */
  datatype FrpsConfig = FrpsConfig(hash: string, enabled: bool)

  /** The configuration on record and whether a service runs. */
  datatype Frps = Frps(hash: string, enabled: bool, running: bool)

  /** A service starts; or fails before, or after, its configuration went on record. */
  datatype Launch = Up | Early | Late

  /** Whether the configuration is valid, how its start and that of the one before fare, and whether
      the record of a switched-off service can be written. */
  datatype FrpsLuck = FrpsLuck(valid: bool, first: Launch, second: Launch, writes: bool)

  function Launched(f: Frps, hash: string, l: Launch): Frps {
    match l
    case Up => Frps(hash, true, true)
    case Late => Frps(hash, true, false)
    case Early => f
  }

  /** Stops the old service and starts the new one, or the old one again. */
  function ApplyFrps(f: Frps, c: FrpsConfig, l: FrpsLuck): (Frps, bool) {
    if !l.valid then (f, false)
    else if f.running && c.enabled && c.hash == f.hash then (f, true)
    else if !c.enabled then (Frps(c.hash, false, false), l.writes)
    else
      var started := Launched(f.(running := false), c.hash, l.first);
      if l.first.Up? then (started, true)
      else if f.enabled && f.hash != "" then (Launched(started, f.hash, l.second), false)
      else (started, false)
  }

  /** Calls of others, and a service that exits on its own. */
  datatype FrpsOp = FrpsApply(config: FrpsConfig, luck: FrpsLuck) | FrpsStart(launch: Launch) | FrpsStop | FrpsExit

  function PerformFrps(f: Frps, op: FrpsOp): Frps {
    match op
    case FrpsApply(c, l) => ApplyFrps(f, c, l).0
    case FrpsStart(l) => if f.running || !f.enabled || f.hash == "" then f else Launched(f, f.hash, l)
    case FrpsStop => f.(running := false)
    case FrpsExit => f.(running := false)
  }

  /** The service is as wanted: this configuration runs, or none does. */
  predicate Serves(f: Frps, wanted: Option<FrpsConfig>) {
    if wanted.Some? && wanted.value.enabled then f.running && f.hash == wanted.value.hash else !f.running
  }

  /** A successful apply serves what it was given. A failed one leaves what was there if the
      configuration is invalid; nothing, if it switched the service off; and otherwise the enabled
      configuration on record before, if there was one and its start succeeds, or nothing. */
  lemma {:induction false} ApplyServes(f: Frps, c: FrpsConfig, l: FrpsLuck)
    ensures var (g, ok) := ApplyFrps(f, c, l);
            && (ok ==> Serves(g, Some(c)))
            && (!ok ==> g == f
                        || (!c.enabled && !g.running)
                        || (c.enabled && (g.running <==> f.enabled && f.hash != "" && l.second.Up?) && (g.running ==> g.hash == f.hash)))
  {
  }
}
