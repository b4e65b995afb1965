/** Reconciling the records of a managed name with the addresses it should have. */
module DnsReconcile {
  import opened Outcomes
  import opened DnsZone

  datatype Mode = ModeA | ModeAAAA | ModeDual | ModeCNAME | ModeInvalid

  /** What the stored domain remembers of one record type. */
  datatype Slot = Slot(desired: string, observed: set<string>, created: bool)

  datatype State = Ready | RetryWait

  datatype Domain = Domain(name: string, mode: Mode, ttl: int, a: Slot, aaaa: Slot, cname: Slot, state: State, retries: nat)

  datatype Targets = Targets(a: string, aaaa: string, cname: string)

  /** `stored` is the database row, `domain` the copy a run works on; `writes` counts the writes
      sent to the provider. */
  datatype World = World(zone: Zone, writes: nat, domain: Domain, stored: Domain)

  datatype Call = CleanupRead | CleanupWrite | FirstLookup | WriteRead | Write | SecondLookup

  type Luck = (Call, RecordType) -> Fate

  const EMPTY_SLOT := Slot("", {}, false)

  predicate Selects(mode: Mode, t: RecordType) {
    match t
    case A => mode.ModeA? || mode.ModeDual?
    case AAAA => mode.ModeAAAA? || mode.ModeDual?
    case CNAME => mode.ModeCNAME?
    case TXT => false
  }

  function Get(d: Domain, t: RecordType): Slot {
    match t
    case A => d.a
    case AAAA => d.aaaa
    case CNAME => d.cname
    case TXT => EMPTY_SLOT
  }

  function Put(d: Domain, t: RecordType, s: Slot): Domain {
    match t
    case A => d.(a := s)
    case AAAA => d.(aaaa := s)
    case CNAME => d.(cname := s)
    case TXT => d
  }

  function Target(g: Targets, t: RecordType): string {
    match t
    case A => g.a
    case AAAA => g.aaaa
    case CNAME => g.cname
    case TXT => ""
  }

  function Aimed(d: Domain, g: Targets): Domain {
    d.(a := d.a.(desired := g.a), aaaa := d.aaaa.(desired := g.aaaa), cname := d.cname.(desired := g.cname))
  }

  // ----- One record type -----

  /** Removes what the Panel created for a type no longer selected, given the value desired
      before this run. */
  function Disable(w: World, t: RecordType, previous: string, luck: Luck): (World, bool) {
    var slot := Get(w.domain, t);
    if Selects(w.domain.mode, t) then (w, true)
    else if !slot.created || previous == "" then (w.(domain := Put(w.domain, t, EMPTY_SLOT)), true)
    else
      var (z, wrote, ok) := Delete(w.zone, w.domain.name, t, previous, luck(CleanupRead, t), luck(CleanupWrite, t));
      var v := w.(zone := z, writes := w.writes + if wrote then 1 else 0);
      if ok then (v.(domain := Put(v.domain, t, EMPTY_SLOT)), true) else (v, false)
  }

  function RecordValues(z: Zone): set<string> {
    set r | r in z :: r.value
  }

  function ReconcileRecord(w: World, t: RecordType, desired: string, luck: Luck): (World, bool) {
    var d := w.domain;
    var slot := Get(d, t);
    if desired == "" then (w.(domain := Put(d, t, slot.(observed := {}))), false)
    else
      var first := Lookup(w.zone, d.name, t, luck(FirstLookup, t));
      if first.None? then (w.(domain := Put(d, t, slot.(observed := {}))), false)
      else if RecordValues(first.value) == {desired} then (w.(domain := Put(d, t, slot.(observed := {desired}))), true)
      else Rewrite(w, t, desired, first.value, luck)
  }

  /** Writes the record and looks at what is there then; `found` was there before. */
  function Rewrite(w: World, t: RecordType, desired: string, found: Zone, luck: Luck): (World, bool) {
    var d := w.domain;
    var (z, wrote, done) := Upsert(w.zone, Record(d.name, t, desired, d.ttl), luck(WriteRead, t), luck(Write, t));
    var second := if done then Lookup(z, d.name, t, luck(SecondLookup, t)) else None;
    var observed := RecordValues(if second.Some? then second.value else found);
    var slot := Get(d, t).(observed := observed, created := Get(d, t).created || found == []);
    (w.(zone := z, writes := w.writes + if wrote then 1 else 0, domain := Put(d, t, slot)), second.Some? && observed == {desired})
  }

  // ----- The whole domain -----

  function DisableAll(w: World, previous: Targets, luck: Luck): (World, bool) {
    var (a, first) := Disable(w, A, previous.a, luck);
    if !first then (a, false)
    else
      var (b, second) := Disable(a, AAAA, previous.aaaa, luck);
      if !second then (b, false) else Disable(b, CNAME, previous.cname, luck)
  }

  function RecordAll(w: World, g: Targets, luck: Luck): (World, bool) {
    match w.domain.mode
    case ModeA => ReconcileRecord(w, A, g.a, luck)
    case ModeAAAA => ReconcileRecord(w, AAAA, g.aaaa, luck)
    case ModeDual =>
      var (a, ok) := ReconcileRecord(w, A, g.a, luck);
      if ok then ReconcileRecord(a, AAAA, g.aaaa, luck) else (a, false)
    case ModeCNAME => ReconcileRecord(w, CNAME, g.cname, luck)
    case ModeInvalid => (w, false)
  }

  function Previous(d: Domain): Targets {
    Targets(d.a.desired, d.aaaa.desired, d.cname.desired)
  }

  /** One run over the domain copy; without targets nothing is touched. */
  function Converge(w: World, g: Option<Targets>, luck: Luck): (World, bool) {
    if g.None? then (w, false)
    else
      var (v, ok) := DisableAll(w.(domain := Aimed(w.domain, g.value)), Previous(w.domain), luck);
      if ok then RecordAll(v, g.value, luck) else (v, false)
  }

  function Marked(d: Domain, ok: bool): Domain {
    if ok then d.(state := Ready, retries := 0) else d.(state := RetryWait, retries := d.retries + 1)
  }

  /** A whole reconcile: the row is read, worked on, and saved whether or not it succeeded. */
  function Reconcile(w: World, g: Option<Targets>, luck: Luck, saves: bool): (World, bool) {
    var (v, ok) := Converge(w.(domain := w.stored), g, luck);
    var marked := Marked(v.domain, ok);
    (v.(domain := marked, stored := if saves then marked else v.stored), ok && saves)
  }

  /** Deleting a managed domain: the address records the Panel created are removed first. */
  function Cleanup(w: World, luck: Luck): (World, bool) {
    var d := w.stored;
    var (y, wroteA, first) :=
      if d.a.created && d.a.desired != "" then Delete(w.zone, d.name, A, d.a.desired, luck(CleanupRead, A), luck(CleanupWrite, A))
      else (w.zone, false, true);
    if !first then (w.(zone := y, writes := w.writes + if wroteA then 1 else 0), false)
    else
      var (x, wroteAAAA, second) :=
        if d.aaaa.created && d.aaaa.desired != "" then Delete(y, d.name, AAAA, d.aaaa.desired, luck(CleanupRead, AAAA), luck(CleanupWrite, AAAA))
        else (y, false, true);
      (w.(zone := x, writes := w.writes + (if wroteA then 1 else 0) + (if wroteAAAA then 1 else 0)), second)
  }
}
