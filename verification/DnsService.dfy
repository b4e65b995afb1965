/** The reconciling service as an object: each call leaves record sets, slots and rows as the
    specification says, and with them everything proved of it. */
module DnsService {
  import opened Outcomes
  import opened DnsZone
  import opened DnsReconcile
  import opened DnsConvergence
  import opened DnsOutcomes

  lemma {:induction false} ReconcileSpec(w: World, g: Option<Targets>, luck: Luck, saves: bool)
    ensures var (v, ok) := Reconcile(w, g, luck, saves);
            && (ok ==> g.Some? && saves && StoredSettled(v, g.value) && !w.stored.mode.ModeInvalid?
                       && v.stored.state == Ready && v.stored.retries == 0)
            && (!ok && saves ==> v.stored.state == RetryWait && v.stored.retries == w.stored.retries + 1)
            && (!saves ==> v.stored == w.stored)
            && Others(v.zone, w.stored.name) == Others(w.zone, w.stored.name)
            && (g.None? ==> v.zone == w.zone && v.writes == w.writes)
            && (g.Some? && StoredSettled(w, g.value) ==> v.zone == w.zone && v.writes == w.writes)
  {
    var loaded := w.(domain := w.stored);
    if g.Some? {
      ConvergeSpec(loaded, g.value, luck);
      var (u, ok) := Converge(loaded, g, luck);
      if ok {
        SuccessSettles(loaded, g.value, luck);
        ValidMode(loaded, g.value, luck);
        MarkedSettled(u, g.value, true);
        SettledView(u.(domain := Marked(u.domain, true)), g.value);
      }
      if StoredSettled(w, g.value) {
        SettledReconcile(w, g.value, luck, saves);
      }
      RetriesKept(loaded, g.value, luck);
    }
    hide Converge, Settled, Others;
  }

  lemma {:induction false} OneKeepsRetries(w: World, t: RecordType, value: string, luck: Luck)
    ensures Disable(w, t, value, luck).0.domain.retries == w.domain.retries
    ensures ReconcileRecord(w, t, value, luck).0.domain.retries == w.domain.retries
  {
    hide Delete, Upsert, Lookup, RecordValues, Get, Selects;
  }

  lemma {:induction false} RetriesKept(w: World, g: Targets, luck: Luck)
    ensures Converge(w, Some(g), luck).0.domain.retries == w.domain.retries
  {
    hide Disable, ReconcileRecord;
    var aimed, before := w.(domain := Aimed(w.domain, g)), Previous(w.domain);
    OneKeepsRetries(aimed, A, before.a, luck);
    var a := Disable(aimed, A, before.a, luck).0;
    OneKeepsRetries(a, AAAA, before.aaaa, luck);
    var b := Disable(a, AAAA, before.aaaa, luck).0;
    OneKeepsRetries(b, CNAME, before.cname, luck);
    var v := DisableAll(aimed, before, luck).0;
    OneKeepsRetries(v, A, g.a, luck);
    OneKeepsRetries(v, AAAA, g.aaaa, luck);
    OneKeepsRetries(v, CNAME, g.cname, luck);
    OneKeepsRetries(ReconcileRecord(v, A, g.a, luck).0, AAAA, g.aaaa, luck);
  }

  class Service {
    var world: World

    constructor (w: World)
      ensures world == w
    {
      world := w;
    }

    method DisableRecord(t: RecordType, previous: string, luck: Luck) returns (ok: bool)
      modifies this
      ensures (world, ok) == Disable(old(world), t, previous, luck)
      ensures Managed(t) ==> CleanupOutcome(old(world), world, t, previous, luck, ok)
    {
      if Managed(t) {
        CleanupEnds(world, t, previous, luck);
      }
      hide CleanupOutcome;
      if Selects(world.domain.mode, t) {
        return true;
      }
      if Get(world.domain, t).created && previous != "" {
        var (z, wrote, done) := Delete(world.zone, world.domain.name, t, previous, luck(CleanupRead, t), luck(CleanupWrite, t));
        world := world.(zone := z, writes := world.writes + if wrote then 1 else 0);
        if !done {
          return false;
        }
      }
      world := world.(domain := Put(world.domain, t, EMPTY_SLOT));
      return true;
    }

    method WriteRecord(t: RecordType, desired: string, luck: Luck) returns (ok: bool)
      modifies this
      ensures (world, ok) == ReconcileRecord(old(world), t, desired, luck)
      ensures Managed(t) ==>
                && SameElsewhere(old(world), world, t)
                && (Before(world, t) == Before(old(world), t) || Before(world, t) == {desired})
                && (ok ==> desired != "" && Before(world, t) == {desired} && Get(world.domain, t).observed == {desired})
                && (Get(world.domain, t).created <==>
                      Get(old(world).domain, t).created || (desired != "" && luck(FirstLookup, t).Fine? && Before(old(world), t) == {}))
      ensures Managed(t) ==> RecordOutcome(old(world), world, t, desired, luck, ok)
    {
      if Managed(t) {
        RecordSpec(world, t, desired, luck);
        RecordEnds(world, t, desired, luck);
      }
      hide Put, Get, Upserted, Matching, RecordOutcome;
      var d := world.domain;
      var slot := Get(d, t);
      var observed: set<string>, created := {}, slot.created;
      ok := false;
      if desired != "" {
        var first := Lookup(world.zone, d.name, t, luck(FirstLookup, t));
        if first.Some? {
          observed := RecordValues(first.value);
          if observed == {desired} {
            ok := true;
          } else {
            created := created || first.value == [];
            var (z, wrote, done) := Upsert(world.zone, Record(d.name, t, desired, d.ttl), luck(WriteRead, t), luck(Write, t));
            world := world.(zone := z, writes := world.writes + if wrote then 1 else 0);
            if done {
              var second := Lookup(z, d.name, t, luck(SecondLookup, t));
              if second.Some? {
                observed := RecordValues(second.value);
                ok := observed == {desired};
              }
            }
          }
        }
      }
      world := world.(domain := Put(d, t, slot.(observed := observed, created := created)));
    }

    method ReconcileDomain(g: Option<Targets>, luck: Luck, saves: bool) returns (ok: bool)
      modifies this
      ensures (world, ok) == Reconcile(old(world), g, luck, saves)
      ensures ok ==> g.Some? && saves && StoredSettled(world, g.value) && !old(world).stored.mode.ModeInvalid?
                     && world.stored.state == Ready && world.stored.retries == 0
      ensures !ok && saves ==> world.stored.state == RetryWait && world.stored.retries == old(world).stored.retries + 1
      ensures !saves ==> world.stored == old(world).stored
      ensures Others(world.zone, old(world).stored.name) == Others(old(world).zone, old(world).stored.name)
      ensures g.None? ==> world.zone == old(world).zone && world.writes == old(world).writes
      ensures g.Some? && StoredSettled(old(world), g.value) ==> world.zone == old(world).zone && world.writes == old(world).writes
      ensures ok <==> g.Some? && saves && RowGoes(old(world), g.value, luck)
      ensures saves ==> RowSaved(old(world).stored, world.stored, g, g.Some? && RowGoes(old(world), g.value, luck))
      ensures g.Some? ==> RunLeaves(old(world), world, g.value, RowGoes(old(world), g.value, luck))
    {
      ReconcileSpec(world, g, luck, saves);
      ReconcileIff(world, g, luck, saves);
      if g.Some? {
        ReconcileLeaves(world, g.value, luck, saves);
      }
      hide Disable, ReconcileRecord, RowGoes, RowSaved, RunLeaves;
      world := world.(domain := world.stored);
      ok := Run(g, luck);
      world := world.(domain := Marked(world.domain, ok));
      if saves {
        world := world.(stored := world.domain);
      }
      ok := ok && saves;
    }

    method Run(g: Option<Targets>, luck: Luck) returns (ok: bool)
      modifies this
      ensures (world, ok) == Converge(old(world), g, luck)
    {
      hide Disable, ReconcileRecord;
      if g.None? {
        return false;
      }
      var previous := Previous(world.domain);
      world := world.(domain := Aimed(world.domain, g.value));
      ok := DisableRecord(A, previous.a, luck);
      if ok {
        ok := DisableRecord(AAAA, previous.aaaa, luck);
      }
      if ok {
        ok := DisableRecord(CNAME, previous.cname, luck);
      }
      if !ok {
        return;
      }
      match world.domain.mode {
        case ModeA => ok := WriteRecord(A, g.value.a, luck);
        case ModeAAAA => ok := WriteRecord(AAAA, g.value.aaaa, luck);
        case ModeDual =>
          ok := WriteRecord(A, g.value.a, luck);
          if ok {
            ok := WriteRecord(AAAA, g.value.aaaa, luck);
          }
        case ModeCNAME => ok := WriteRecord(CNAME, g.value.cname, luck);
        case ModeInvalid => ok := false;
      }
    }
  }
}
