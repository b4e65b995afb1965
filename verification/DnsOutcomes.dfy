/** How a reconcile ends, decided by the calls it makes: the exact outcome of every step. */
module DnsOutcomes {
  import opened Outcomes
  import opened DnsZone
  import opened DnsReconcile
  import opened DnsConvergence

  // ----- One record set -----

  /** The record set of a type is looked up and found to differ from the value wanted. */
  ghost predicate Writes(w: World, t: RecordType, desired: string, luck: Luck) {
    desired != "" && luck(FirstLookup, t).Fine? && Before(w, t) != {desired}
  }

  /** The value wanted is there already, or is written and then seen. */
  ghost predicate RecordGoes(w: World, t: RecordType, desired: string, luck: Luck) {
    && desired != "" && luck(FirstLookup, t).Fine?
    && (Before(w, t) == {desired} || (luck(Write, t).Fine? && luck(SecondLookup, t).Fine?))
  }

  ghost predicate ZoneOutcome(w: World, v: World, t: RecordType, desired: string, luck: Luck, ok: bool) {
    && (ok <==> RecordGoes(w, t, desired, luck))
    && v.writes == w.writes + (if Writes(w, t, desired, luck) then 1 else 0)
    && Before(v, t) == (if Writes(w, t, desired, luck) && !luck(Write, t).Fails? then {desired} else Before(w, t))
    && (Writes(w, t, desired, luck) && !luck(Write, t).Fails? ==> Record(w.domain.name, t, desired, w.domain.ttl) in v.zone)
    && (!Writes(w, t, desired, luck) ==> v.zone == w.zone)
  }

  ghost function SlotAfter(w: World, t: RecordType, desired: string, luck: Luck): Slot {
    Slot(Get(w.domain, t).desired,
         if desired == "" || !luck(FirstLookup, t).Fine? then {}
         else if RecordGoes(w, t, desired, luck) then {desired}
         else Before(w, t),
         Get(w.domain, t).created || (desired != "" && luck(FirstLookup, t).Fine? && Before(w, t) == {}))
  }

  /** Writing one type, to the last field: the record set, whether a write was sent, what the slot
      remembers, and the outcome. */
  ghost predicate RecordOutcome(w: World, v: World, t: RecordType, desired: string, luck: Luck, ok: bool) {
    && ZoneOutcome(w, v, t, desired, luck, ok)
    && v.domain == Put(w.domain, t, SlotAfter(w, t, desired, luck)) && v.stored == w.stored
  }

  /** What the first lookup finds. */
  lemma {:induction false} FoundIs(w: World, t: RecordType)
    ensures var found := Matching(w.zone, Match(w.domain.name, t, None));
            RecordValues(found) == Before(w, t) && (found == [] <==> Before(w, t) == {})
  {
    LookupValues(w.zone, w.domain.name, t);
  }

  lemma {:induction false} NothingWritten(w: World, t: RecordType, desired: string, luck: Luck)
    requires Managed(t) && !Writes(w, t, desired, luck)
    ensures ReconcileRecord(w, t, desired, luck)
         == (w.(domain := Put(w.domain, t, SlotAfter(w, t, desired, luck))), RecordGoes(w, t, desired, luck))
  {
    FoundIs(w, t);
    hide Before, Matching, RecordValues, Get, Put, Upsert;
    var slot := Get(w.domain, t);
    if desired != "" && luck(FirstLookup, t).Fine? {
      assert slot.(observed := {desired}) == SlotAfter(w, t, desired, luck);
    } else {
      assert slot.(observed := {}) == SlotAfter(w, t, desired, luck);
    }
  }

  lemma {:induction false} RewriteIs(w: World, t: RecordType, desired: string, found: Zone, luck: Luck, z: Zone)
    requires Upsert(w.zone, Record(w.domain.name, t, desired, w.domain.ttl), luck(WriteRead, t), luck(Write, t)) == (z, true, luck(Write, t).Fine?)
    requires luck(Write, t).Fine? ==> RecordValues(Matching(z, Match(w.domain.name, t, None))) == {desired}
    ensures var seen := luck(Write, t).Fine? && luck(SecondLookup, t).Fine?;
            var slot := Get(w.domain, t).(observed := if seen then {desired} else RecordValues(found),
                                          created := Get(w.domain, t).created || found == []);
            Rewrite(w, t, desired, found, luck) == (w.(zone := z, writes := w.writes + 1, domain := Put(w.domain, t, slot)), seen)
  {
    hide Upsert, Matching, RecordValues, Get, Put;
  }

  lemma {:induction false} SomethingWritten(w: World, t: RecordType, desired: string, luck: Luck)
    requires Managed(t) && Writes(w, t, desired, luck)
    ensures var (v, ok) := ReconcileRecord(w, t, desired, luck);
            && ok == RecordGoes(w, t, desired, luck)
            && v == w.(zone := if luck(Write, t).Fails? then w.zone else Upserted(w.zone, Record(w.domain.name, t, desired, w.domain.ttl)),
                       writes := w.writes + 1,
                       domain := Put(w.domain, t, SlotAfter(w, t, desired, luck)))
  {
    FoundIs(w, t);
    var r := Record(w.domain.name, t, desired, w.domain.ttl);
    var z := if luck(Write, t).Fails? then w.zone else Upserted(w.zone, r);
    AddressUpsert(w.zone, r, luck(WriteRead, t), luck(Write, t));
    LookupValues(z, w.domain.name, t);
    var found := Matching(w.zone, Match(w.domain.name, t, None));
    RewriteIs(w, t, desired, found, luck, z);
    hide Before, Values, Upserted, Upsert, Matching, RecordValues, Get, Put, Rewrite, Managed;
    assert ReconcileRecord(w, t, desired, luck) == Rewrite(w, t, desired, found, luck);
    hide ReconcileRecord;
  }

  lemma {:induction false} RecordEnds(w: World, t: RecordType, desired: string, luck: Luck)
    requires Managed(t)
    ensures var (v, ok) := ReconcileRecord(w, t, desired, luck);
            RecordOutcome(w, v, t, desired, luck, ok)
  {
    PutSlot(w.domain, t);
    if Writes(w, t, desired, luck) {
      SomethingWritten(w, t, desired, luck);
      AddressUpsert(w.zone, Record(w.domain.name, t, desired, w.domain.ttl), luck(WriteRead, t), luck(Write, t));
    } else {
      NothingWritten(w, t, desired, luck);
    }
    hide ReconcileRecord, Values, Upserted, Upsert, Get, Put, SlotAfter, RecordGoes, Managed;
  }

  lemma {:induction false} AddressUpsert(z: Zone, r: Record, read: Fate, write: Fate)
    requires Managed(r.typ)
    ensures Upsert(z, r, read, write) == (if write.Fails? then z else Upserted(z, r), true, write.Fine?)
    ensures r in Upserted(z, r) && Values(Upserted(z, r), r.name, r.typ) == {r.value}
  {
    UpsertedValues(z, r);
    assert {} + {r.value} == {r.value};
    hide Values, Others, Matching, Dropping;
  }

  lemma {:induction false} PutSlot(d: Domain, t: RecordType)
    requires Managed(t)
    ensures forall s: Slot :: Put(d, t, s).name == d.name
  {
  }

  /** The clean-up of an unselected type goes through: there is nothing to remove, or the value is
      looked up and, if it is there, removed. */
  ghost predicate CleanupGoes(w: World, t: RecordType, previous: string, luck: Luck) {
    Removes(w, t, previous) ==> luck(CleanupRead, t).Fine? && (previous in Before(w, t) ==> luck(CleanupWrite, t).Fine?)
  }

  ghost predicate CleanupOutcome(w: World, v: World, t: RecordType, previous: string, luck: Luck, ok: bool) {
    && (ok <==> CleanupGoes(w, t, previous, luck))
    && Before(v, t) == (if Removes(w, t, previous) && luck(CleanupRead, t).Fine? && !luck(CleanupWrite, t).Fails?
                        then Before(w, t) - {previous} else Before(w, t))
    && v.writes == w.writes + (if Removes(w, t, previous) && luck(CleanupRead, t).Fine? && previous in Before(w, t) then 1 else 0)
  }

  lemma {:induction false} DeleteEnds(z: Zone, name: string, t: RecordType, value: string, read: Fate, write: Fate)
    requires value != ""
    ensures var (y, wrote, ok) := Delete(z, name, t, value, read, write);
            && (ok <==> read.Fine? && (value in Values(z, name, t) ==> write.Fine?))
            && (wrote <==> read.Fine? && value in Values(z, name, t))
            && Values(y, name, t) == if read.Fine? && !write.Fails? then Values(z, name, t) - {value} else Values(z, name, t)
  {
    ValueThere(z, name, t, value);
    DropValueSpec(z, name, t, value);
    if value !in Values(z, name, t) {
      NothingDropped(z, name, t, value);
    }
    hide Values, Matching, Dropping, Others;
  }

  lemma {:induction false} NothingDropped(z: Zone, name: string, t: RecordType, value: string)
    requires value !in Values(z, name, t)
    ensures Values(z, name, t) - {value} == Values(z, name, t)
  {
  }

  lemma {:induction false} CleanupEnds(w: World, t: RecordType, previous: string, luck: Luck)
    requires Managed(t)
    ensures var (v, ok) := Disable(w, t, previous, luck);
            CleanupOutcome(w, v, t, previous, luck, ok)
  {
    if previous != "" {
      DeleteEnds(w.zone, w.domain.name, t, previous, luck(CleanupRead, t), luck(CleanupWrite, t));
    }
    PutGet(w.domain, t, EMPTY_SLOT);
    hide Delete, Values, Get, Put, Selects;
  }

  // ----- The whole run -----

  ghost predicate CleanupsGo(w: World, previous: Targets, luck: Luck) {
    CleanupGoes(w, A, previous.a, luck) && CleanupGoes(w, AAAA, previous.aaaa, luck) && CleanupGoes(w, CNAME, previous.cname, luck)
  }

  ghost predicate RecordsGo(w: World, g: Targets, luck: Luck) {
    && !w.domain.mode.ModeInvalid?
    && (Selects(w.domain.mode, A) ==> RecordGoes(w, A, g.a, luck))
    && (Selects(w.domain.mode, AAAA) ==> RecordGoes(w, AAAA, g.aaaa, luck))
    && (Selects(w.domain.mode, CNAME) ==> RecordGoes(w, CNAME, g.cname, luck))
  }

  /** The record set and the slot of a type are the same in both worlds. */
  ghost predicate SameType(w: World, v: World, t: RecordType) {
    Before(v, t) == Before(w, t) && Get(v.domain, t) == Get(w.domain, t) && v.domain.mode == w.domain.mode && v.domain.name == w.domain.name
  }

  lemma {:induction false} CleanupAlike(w: World, v: World, t: RecordType, previous: string, luck: Luck)
    requires SameType(w, v, t)
    ensures CleanupGoes(v, t, previous, luck) == CleanupGoes(w, t, previous, luck)
  {
    hide Before, Selects, Get;
  }

  lemma {:induction false} RecordAlike(w: World, v: World, t: RecordType, desired: string, luck: Luck)
    requires Before(v, t) == Before(w, t)
    ensures RecordGoes(v, t, desired, luck) == RecordGoes(w, t, desired, luck)
  {
    hide Before;
  }

  lemma {:induction false} DisableAllIff(w: World, previous: Targets, luck: Luck)
    ensures DisableAll(w, previous, luck).1 <==> CleanupsGo(w, previous, luck)
  {
    var a := Disable(w, A, previous.a, luck).0;
    var b := Disable(a, AAAA, previous.aaaa, luck).0;
    DisableSpec(w, A, previous.a, luck);
    DisableSpec(a, AAAA, previous.aaaa, luck);
    CleanupEnds(w, A, previous.a, luck);
    CleanupEnds(a, AAAA, previous.aaaa, luck);
    CleanupEnds(b, CNAME, previous.cname, luck);
    Elsewhere(w, a, A);
    Elsewhere(a, b, AAAA);
    hide SameElsewhere, Disable, Values, Others, Get, Selects, Before, CleanupGoes;
    CleanupAlike(w, a, AAAA, previous.aaaa, luck);
    CleanupAlike(w, b, CNAME, previous.cname, luck);
  }

  lemma {:induction false} RecordAllIff(w: World, g: Targets, luck: Luck)
    ensures RecordAll(w, g, luck).1 <==> RecordsGo(w, g, luck)
  {
    hide ReconcileRecord, Before, RecordGoes;
    match w.domain.mode
    case ModeA => RecordEnds(w, A, g.a, luck);
    case ModeAAAA => RecordEnds(w, AAAA, g.aaaa, luck);
    case ModeDual =>
      var a := ReconcileRecord(w, A, g.a, luck).0;
      RecordEnds(w, A, g.a, luck);
      RecordEnds(a, AAAA, g.aaaa, luck);
      RecordOne(w, A, g.a, luck);
      RecordAlike(w, a, AAAA, g.aaaa, luck);
    case ModeCNAME => RecordEnds(w, CNAME, g.cname, luck);
    case ModeInvalid =>
  }

  /** A run succeeds exactly when the mode is known, every value to be removed is looked up and
      removed if it is there, and every wanted value is given, looked up, and there already or
      written and seen. */
  lemma {:induction false} ConvergeIff(w: World, g: Targets, luck: Luck)
    ensures Converge(w, Some(g), luck).1 <==> CleanupsGo(w, Previous(w.domain), luck) && RecordsGo(w, g, luck)
  {
    var aimed := w.(domain := Aimed(w.domain, g));
    var (v, cleaned) := DisableAll(aimed, Previous(w.domain), luck);
    DisableAllIff(aimed, Previous(w.domain), luck);
    DisableAllSpec(aimed, Previous(w.domain), luck);
    RecordAllIff(v, g, luck);
    AimedGoes(w, g, Previous(w.domain), luck);
    hide DisableAll, RecordAll, Aimed, CleanupsGo, Previous;
    if cleaned {
      assert Cleaned(aimed, v, A, Previous(w.domain).a, true) && Cleaned(aimed, v, AAAA, Previous(w.domain).aaaa, true)
          && Cleaned(aimed, v, CNAME, Previous(w.domain).cname, true);
      SelectedAlike(aimed, v, A, Previous(w.domain).a, g.a, luck);
      SelectedAlike(aimed, v, AAAA, Previous(w.domain).aaaa, g.aaaa, luck);
      SelectedAlike(aimed, v, CNAME, Previous(w.domain).cname, g.cname, luck);
      hide Cleaned, RecordGoes, Before;
    }
  }

  lemma {:induction false} SelectedAlike(w: World, v: World, t: RecordType, previous: string, desired: string, luck: Luck)
    requires Cleaned(w, v, t, previous, true)
    ensures Selects(w.domain.mode, t) ==> (RecordGoes(v, t, desired, luck) <==> RecordGoes(w, t, desired, luck))
  {
    hide Before, Get, Selects;
  }

  lemma {:induction false} AimedGoes(w: World, g: Targets, previous: Targets, luck: Luck)
    ensures var aimed := w.(domain := Aimed(w.domain, g));
            && (CleanupsGo(aimed, previous, luck) <==> CleanupsGo(w, previous, luck))
            && (RecordsGo(aimed, g, luck) <==> RecordsGo(w, g, luck))
            && aimed.domain.mode == w.domain.mode
  {
    var aimed := w.(domain := Aimed(w.domain, g));
    AimedSlots(w.domain, g, A);
    AimedSlots(w.domain, g, AAAA);
    AimedSlots(w.domain, g, CNAME);
    hide Values, Get, Selects, Aimed;
    assert forall t: RecordType :: Before(aimed, t) == Before(w, t);
  }

  // ----- The row -----

  /** What is remembered of a type afterwards: a selected one is aimed at its target, and has it on
      success; of another one, nothing on success. */
  ghost predicate SlotLeft(d: Domain, e: Domain, t: RecordType, target: string, ok: bool) {
    var was, now := Get(d, t), Get(e, t);
    if Selects(d.mode, t) then now.desired == target && (ok ==> now.observed == {target}) && (was.created ==> now.created)
    else (now == EMPTY_SLOT || now == was.(desired := target)) && (ok ==> now == EMPTY_SLOT)
  }

  ghost predicate SameFrame(d: Domain, e: Domain) {
    e.name == d.name && e.mode == d.mode && e.ttl == d.ttl && e.state == d.state && e.retries == d.retries
  }

  /** What the run knows of the domain afterwards: everything but the slots is as it was. */
  ghost predicate RowAfter(d: Domain, e: Domain, g: Targets, ok: bool) {
    && SameFrame(d, e)
    && SlotLeft(d, e, A, g.a, ok) && SlotLeft(d, e, AAAA, g.aaaa, ok) && SlotLeft(d, e, CNAME, g.cname, ok)
  }

  /** One step on a type, seen from the row. */
  ghost predicate SlotStep(d: Domain, e: Domain, t: RecordType) {
    SameFrame(d, e) && forall u: RecordType | u != t :: Get(e, u) == Get(d, u)
  }

  lemma {:induction false} PutStep(d: Domain, t: RecordType, s: Slot)
    requires Managed(t)
    ensures SlotStep(d, Put(d, t, s), t) && Get(Put(d, t, s), t) == s
  {
  }

  lemma {:induction false} DisableRow(w: World, t: RecordType, previous: string, luck: Luck)
    requires Managed(t)
    ensures var (v, ok) := Disable(w, t, previous, luck);
            && SlotStep(w.domain, v.domain, t)
            && Get(v.domain, t) == if Selects(w.domain.mode, t) || !ok then Get(w.domain, t) else EMPTY_SLOT
  {
    PutStep(w.domain, t, EMPTY_SLOT);
    hide Delete, Get, Put, Selects;
  }

  lemma {:induction false} RecordRow(w: World, t: RecordType, desired: string, luck: Luck)
    requires Managed(t)
    ensures var (v, ok) := ReconcileRecord(w, t, desired, luck);
            && SlotStep(w.domain, v.domain, t)
            && Get(v.domain, t).desired == Get(w.domain, t).desired
            && (Get(w.domain, t).created ==> Get(v.domain, t).created)
            && (ok ==> Get(v.domain, t).observed == {desired})
  {
    RecordEnds(w, t, desired, luck);
    PutStep(w.domain, t, SlotAfter(w, t, desired, luck));
    hide ReconcileRecord, Get, Put, Before, Writes, SlotStep;
  }

  ghost predicate Forgotten(d: Domain, e: Domain, t: RecordType, ok: bool) {
    && (Get(e, t) == Get(d, t) || (!Selects(d.mode, t) && Get(e, t) == EMPTY_SLOT))
    && (ok && !Selects(d.mode, t) ==> Get(e, t) == EMPTY_SLOT)
  }

  lemma {:induction false} DisableAllRow(w: World, previous: Targets, luck: Luck)
    ensures var (v, ok) := DisableAll(w, previous, luck);
            && SameFrame(w.domain, v.domain)
            && Forgotten(w.domain, v.domain, A, ok) && Forgotten(w.domain, v.domain, AAAA, ok) && Forgotten(w.domain, v.domain, CNAME, ok)
  {
    var a := Disable(w, A, previous.a, luck).0;
    var b := Disable(a, AAAA, previous.aaaa, luck).0;
    DisableRow(w, A, previous.a, luck);
    DisableRow(a, AAAA, previous.aaaa, luck);
    DisableRow(b, CNAME, previous.cname, luck);
    hide Disable, Get, Selects;
  }

  ghost predicate Recorded(d: Domain, e: Domain, t: RecordType, target: string, ok: bool) {
    if Selects(d.mode, t) then
      && Get(e, t).desired == Get(d, t).desired && (Get(d, t).created ==> Get(e, t).created)
      && (ok ==> Get(e, t).observed == {target})
    else Get(e, t) == Get(d, t)
  }

  lemma {:induction false} RecordAllRow(w: World, g: Targets, luck: Luck)
    ensures var (v, ok) := RecordAll(w, g, luck);
            && SameFrame(w.domain, v.domain)
            && Recorded(w.domain, v.domain, A, g.a, ok) && Recorded(w.domain, v.domain, AAAA, g.aaaa, ok)
            && Recorded(w.domain, v.domain, CNAME, g.cname, ok)
  {
    hide ReconcileRecord, Get;
    match w.domain.mode
    case ModeA => RecordRow(w, A, g.a, luck);
    case ModeAAAA => RecordRow(w, AAAA, g.aaaa, luck);
    case ModeDual =>
      RecordRow(w, A, g.a, luck);
      RecordRow(ReconcileRecord(w, A, g.a, luck).0, AAAA, g.aaaa, luck);
    case ModeCNAME => RecordRow(w, CNAME, g.cname, luck);
    case ModeInvalid =>
  }

  lemma {:induction false} ConvergeRow(w: World, g: Targets, luck: Luck)
    ensures var (v, ok) := Converge(w, Some(g), luck);
            RowAfter(w.domain, v.domain, g, ok)
  {
    var aimed := w.(domain := Aimed(w.domain, g));
    AimedRow(w.domain, g);
    DisableAllRow(aimed, Previous(w.domain), luck);
    RecordAllRow(DisableAll(aimed, Previous(w.domain), luck).0, g, luck);
    hide DisableAll, RecordAll, Aimed, Get, Selects;
  }

  /** How a whole reconcile ends: it succeeds exactly when there are targets, the run over the row
      succeeds and the row is saved; the saved row carries what the run knows. */
  lemma {:induction false} ReconcileIff(w: World, g: Option<Targets>, luck: Luck, saves: bool)
    ensures var (v, ok) := Reconcile(w, g, luck, saves);
            && (ok <==> g.Some? && saves && RowGoes(w, g.value, luck))
            && (saves ==> RowSaved(w.stored, v.stored, g, g.Some? && RowGoes(w, g.value, luck)))
  {
    if g.Some? {
      var loaded := w.(domain := w.stored);
      ConvergeIff(loaded, g.value, luck);
      ConvergeRow(loaded, g.value, luck);
    }
    hide Converge, SlotLeft, CleanupsGo, RecordsGo;
  }

  ghost predicate RowGoes(w: World, g: Targets, luck: Luck) {
    var loaded := w.(domain := w.stored);
    CleanupsGo(loaded, Previous(w.stored), luck) && RecordsGo(loaded, g, luck)
  }

  /** The record sets a run over the row leaves, type by type. */
  ghost predicate RunLeaves(w: World, v: World, g: Targets, good: bool) {
    var loaded := w.(domain := w.stored);
    && Leaves(loaded, v.zone, A, g.a, w.stored.a.desired, good)
    && Leaves(loaded, v.zone, AAAA, g.aaaa, w.stored.aaaa.desired, good)
    && Leaves(loaded, v.zone, CNAME, g.cname, w.stored.cname.desired, good)
  }

  ghost predicate Leaves(w: World, z: Zone, t: RecordType, target: string, previous: string, good: bool) {
    var before, after := Before(w, t), Values(z, w.domain.name, t);
    if Selects(w.domain.mode, t) then (after == before || after == {target}) && (good ==> after == {target})
    else
      && (after == before || (Removes(w, t, previous) && after == before - {previous}))
      && (good ==> after == if Removes(w, t, previous) then before - {previous} else before)
  }

  lemma {:induction false} ReconcileLeaves(w: World, g: Targets, luck: Luck, saves: bool)
    ensures RunLeaves(w, Reconcile(w, Some(g), luck, saves).0, g, RowGoes(w, g, luck))
  {
    var loaded := w.(domain := w.stored);
    ConvergeIff(loaded, g, luck);
    ConvergeSpec(loaded, g, luck);
    hide Converge, Values, Others, Get, Selects, CleanupsGo, RecordsGo, Removes;
  }

  ghost predicate RowSaved(was: Domain, row: Domain, g: Option<Targets>, good: bool) {
    && row.state == (if good then Ready else RetryWait)
    && row.retries == (if good then 0 else was.retries + 1)
    && var run := row.(state := was.state, retries := was.retries);
       if g.Some? then RowAfter(was, run, g.value, good) else run == was
  }

  lemma {:induction false} AimedRow(d: Domain, g: Targets)
    ensures SameFrame(d, Aimed(d, g))
    ensures Get(Aimed(d, g), A) == Get(d, A).(desired := g.a)
    ensures Get(Aimed(d, g), AAAA) == Get(d, AAAA).(desired := g.aaaa)
    ensures Get(Aimed(d, g), CNAME) == Get(d, CNAME).(desired := g.cname)
  {
  }
}
