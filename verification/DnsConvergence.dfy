/** What a reconcile leaves in the zone, when nothing is written any more, and what is lost. */
module DnsConvergence {
  import opened Outcomes
  import opened DnsZone
  import opened DnsReconcile

  predicate Managed(t: RecordType) {
    t != TXT
  }

  /** Two worlds that differ in the record set and the slot of one type only. */
  ghost predicate SameElsewhere(w: World, v: World, t: RecordType) {
    && v.stored == w.stored
    && v.domain.name == w.domain.name && v.domain.mode == w.domain.mode && v.domain.ttl == w.domain.ttl
    && Others(v.zone, w.domain.name) == Others(w.zone, w.domain.name)
    && (forall u: RecordType | u != t :: Get(v.domain, u) == Get(w.domain, u) && Values(v.zone, w.domain.name, u) == Values(w.zone, w.domain.name, u))
  }

  function Before(w: World, t: RecordType): set<string> {
    Values(w.zone, w.domain.name, t)
  }

  lemma {:induction false} LookupValues(z: Zone, name: string, t: RecordType)
    ensures RecordValues(Matching(z, Match(name, t, None))) == Values(z, name, t)
    ensures Matching(z, Match(name, t, None)) == [] <==> Values(z, name, t) == {}
  {
    var m := Match(name, t, None);
    hide Matching;
    if Matching(z, m) != [] {
      assert Matching(z, m)[0] in Matching(z, m);
      assert Matching(z, m)[0].value in Values(z, name, t);
    }
  }

  lemma {:induction false} PutGet(d: Domain, t: RecordType, slot: Slot)
    requires Managed(t)
    ensures Get(Put(d, t, slot), t) == slot
    ensures forall u: RecordType | u != t :: Get(Put(d, t, slot), u) == Get(d, u)
    ensures var e := Put(d, t, slot); e.name == d.name && e.mode == d.mode && e.ttl == d.ttl
  {
  }

  lemma {:induction false} DisableSpec(w: World, t: RecordType, previous: string, luck: Luck)
    requires Managed(t)
    ensures var (v, ok) := Disable(w, t, previous, luck);
            var removes := !Selects(w.domain.mode, t) && Get(w.domain, t).created && previous != "";
            && SameElsewhere(w, v, t)
            && (Before(v, t) == Before(w, t) || (removes && Before(v, t) == Before(w, t) - {previous}))
            && (!removes ==> ok && v.zone == w.zone && v.writes == w.writes)
            && (ok && removes ==> Before(v, t) == Before(w, t) - {previous})
            && Get(v.domain, t) == (if ok && !Selects(w.domain.mode, t) then EMPTY_SLOT else Get(w.domain, t))
  {
    PutGet(w.domain, t, EMPTY_SLOT);
    if previous != "" {
      DeleteSpec(w.zone, w.domain.name, t, previous, luck(CleanupRead, t), luck(CleanupWrite, t));
    }
    hide Delete, Values, Others, Get, Put, Selects;
  }

  /** Writing one type. The created flag is raised exactly when the record set was seen empty,
      whether or not the write then succeeds. */
  lemma {:induction false} RecordSpec(w: World, t: RecordType, desired: string, luck: Luck)
    requires Managed(t)
    ensures var (v, ok) := ReconcileRecord(w, t, desired, luck);
            && SameElsewhere(w, v, t)
            && (Before(v, t) == Before(w, t) || Before(v, t) == {desired})
            && (ok ==> desired != "" && Before(v, t) == {desired} && Get(v.domain, t).observed == {desired})
            && Get(v.domain, t).desired == Get(w.domain, t).desired
            && (Get(v.domain, t).created <==> Get(w.domain, t).created
                                               || (desired != "" && luck(FirstLookup, t).Fine? && Before(w, t) == {}))
            && (desired != "" && Before(w, t) == {desired} ==> v.zone == w.zone && v.writes == w.writes && (ok <==> luck(FirstLookup, t).Fine?))
  {
    LookupValues(w.zone, w.domain.name, t);
    var r := Record(w.domain.name, t, desired, w.domain.ttl);
    UpsertSpec(w.zone, r, luck(WriteRead, t), luck(Write, t));
    LookupValues(Upserted(w.zone, r), w.domain.name, t);
    LookupValues(w.zone, w.domain.name, t);
    hide Values, Others, Upserted, Matching, RecordValues;
  }

  /** The types in the order they are worked through. */
  ghost predicate Chained(w: World, v: World) {
    && v.stored == w.stored && v.domain.name == w.domain.name && v.domain.mode == w.domain.mode
    && Others(v.zone, w.domain.name) == Others(w.zone, w.domain.name)
    && Values(v.zone, w.domain.name, TXT) == Values(w.zone, w.domain.name, TXT)
  }

  predicate Removes(w: World, t: RecordType, previous: string) {
    !Selects(w.domain.mode, t) && Get(w.domain, t).created && previous != ""
  }

  /** What a type's record set may be after the clean-up phase, and is if it succeeds. */
  ghost predicate Cleaned(w: World, v: World, t: RecordType, previous: string, ok: bool) {
    && (Before(v, t) == Before(w, t) || (Removes(w, t, previous) && Before(v, t) == Before(w, t) - {previous}))
    && (ok ==> Before(v, t) == if Removes(w, t, previous) then Before(w, t) - {previous} else Before(w, t))
    && (ok ==> Get(v.domain, t) == if Selects(w.domain.mode, t) then Get(w.domain, t) else EMPTY_SLOT)
  }

  lemma {:induction false} Elsewhere(w: World, v: World, t: RecordType)
    requires SameElsewhere(w, v, t) && Managed(t)
    ensures Chained(w, v)
    ensures t != A ==> Before(v, A) == Before(w, A) && Get(v.domain, A) == Get(w.domain, A)
    ensures t != AAAA ==> Before(v, AAAA) == Before(w, AAAA) && Get(v.domain, AAAA) == Get(w.domain, AAAA)
    ensures t != CNAME ==> Before(v, CNAME) == Before(w, CNAME) && Get(v.domain, CNAME) == Get(w.domain, CNAME)
  {
    hide Values, Others, Get;
  }

  lemma {:induction false} DisableAllSpec(w: World, previous: Targets, luck: Luck)
    ensures var (v, ok) := DisableAll(w, previous, luck);
            && Chained(w, v)
            && Cleaned(w, v, A, previous.a, ok) && Cleaned(w, v, AAAA, previous.aaaa, ok) && Cleaned(w, v, CNAME, previous.cname, ok)
            && (!Removes(w, A, previous.a) && !Removes(w, AAAA, previous.aaaa) && !Removes(w, CNAME, previous.cname)
                ==> ok && v.zone == w.zone && v.writes == w.writes)
  {
    var (a, first) := Disable(w, A, previous.a, luck);
    var (b, second) := Disable(a, AAAA, previous.aaaa, luck);
    var (c, third) := Disable(b, CNAME, previous.cname, luck);
    DisableSpec(w, A, previous.a, luck);
    DisableSpec(a, AAAA, previous.aaaa, luck);
    DisableSpec(b, CNAME, previous.cname, luck);
    Elsewhere(w, a, A);
    Elsewhere(a, b, AAAA);
    Elsewhere(b, c, CNAME);
    hide SameElsewhere, Disable, Values, Others, Get, Selects, Before;
  }

  /** What a selected type's record set may be after the writing phase, and is if it succeeds. */
  ghost predicate Written(w: World, v: World, t: RecordType, target: string, ok: bool) {
    if Selects(w.domain.mode, t) then
      && (Before(v, t) == Before(w, t) || Before(v, t) == {target})
      && (ok ==> Before(v, t) == {target} && target != "")
    else Before(v, t) == Before(w, t) && Get(v.domain, t) == Get(w.domain, t)
  }

  lemma {:induction false} RecordAllSpec(w: World, g: Targets, luck: Luck)
    ensures var (v, ok) := RecordAll(w, g, luck);
            && Chained(w, v)
            && Written(w, v, A, g.a, ok) && Written(w, v, AAAA, g.aaaa, ok) && Written(w, v, CNAME, g.cname, ok)
  {
    hide SameElsewhere, ReconcileRecord, Values, Others, Get, Before;
    match w.domain.mode
    case ModeA => RecordOne(w, A, g.a, luck);
    case ModeAAAA => RecordOne(w, AAAA, g.aaaa, luck);
    case ModeDual =>
      RecordOne(w, A, g.a, luck);
      RecordOne(ReconcileRecord(w, A, g.a, luck).0, AAAA, g.aaaa, luck);
    case ModeCNAME => RecordOne(w, CNAME, g.cname, luck);
    case ModeInvalid =>
  }

  lemma {:induction false} RecordOne(w: World, t: RecordType, target: string, luck: Luck)
    requires Managed(t)
    ensures var (v, ok) := ReconcileRecord(w, t, target, luck);
            && Chained(w, v)
            && (t != A ==> Before(v, A) == Before(w, A) && Get(v.domain, A) == Get(w.domain, A))
            && (t != AAAA ==> Before(v, AAAA) == Before(w, AAAA) && Get(v.domain, AAAA) == Get(w.domain, AAAA))
            && (t != CNAME ==> Before(v, CNAME) == Before(w, CNAME) && Get(v.domain, CNAME) == Get(w.domain, CNAME))
            && (Before(v, t) == Before(w, t) || Before(v, t) == {target})
            && (ok ==> target != "" && Before(v, t) == {target})
            && (target != "" && Before(w, t) == {target} ==> v.zone == w.zone && v.writes == w.writes && (ok <==> luck(FirstLookup, t).Fine?))
  {
    RecordSpec(w, t, target, luck);
    hide SameElsewhere, ReconcileRecord, Values, Others, Get;
    Elsewhere(w, ReconcileRecord(w, t, target, luck).0, t);
  }

  lemma {:induction false} AimedSlots(d: Domain, g: Targets, t: RecordType)
    ensures Get(Aimed(d, g), t).created == Get(d, t).created
    ensures Aimed(d, g).name == d.name && Aimed(d, g).mode == d.mode
  {
  }

  /** What one run leaves of a type: the wanted value alone if selected, all but the value the
      Panel had created if not, and on failure one of these or what was there. */
  ghost predicate Reached(w: World, v: World, t: RecordType, target: string, previous: string, ok: bool) {
    if Selects(w.domain.mode, t) then
      && (Before(v, t) == Before(w, t) || Before(v, t) == {target})
      && (ok ==> Before(v, t) == {target} && target != "")
    else
      && (Before(v, t) == Before(w, t) || (Removes(w, t, previous) && Before(v, t) == Before(w, t) - {previous}))
      && (ok ==> Before(v, t) == if Removes(w, t, previous) then Before(w, t) - {previous} else Before(w, t))
      && (ok ==> !Get(v.domain, t).created)
  }

  /** One run, wherever it fails: other names and types keep their records, an unselected type
      loses at most the value desired before and only if the Panel created it, and after
      success each selected type has exactly the target. */
  lemma {:induction false} ConvergeSpec(w: World, g: Targets, luck: Luck)
    ensures var (v, ok) := Converge(w, Some(g), luck);
            && Chained(w, v)
            && Reached(w, v, A, g.a, w.domain.a.desired, ok)
            && Reached(w, v, AAAA, g.aaaa, w.domain.aaaa.desired, ok)
            && Reached(w, v, CNAME, g.cname, w.domain.cname.desired, ok)
  {
    var aimed := w.(domain := Aimed(w.domain, g));
    AimedSlots(w.domain, g, A);
    AimedSlots(w.domain, g, AAAA);
    AimedSlots(w.domain, g, CNAME);
    DisableAllSpec(aimed, Previous(w.domain), luck);
    var (v, ok) := DisableAll(aimed, Previous(w.domain), luck);
    RecordAllSpec(v, g, luck);
    hide DisableAll, RecordAll, Values, Others, Get, Selects, Aimed;
    assert forall t: RecordType :: Before(aimed, t) == Before(w, t);
  }

  // ----- Fixpoint -----

  ghost predicate SettledType(w: World, t: RecordType, target: string) {
    if Selects(w.domain.mode, t) then target != "" && Before(w, t) == {target} else !Get(w.domain, t).created
  }

  /** Nothing is left to do for the targets. */
  ghost predicate Settled(w: World, g: Targets) {
    SettledType(w, A, g.a) && SettledType(w, AAAA, g.aaaa) && SettledType(w, CNAME, g.cname) && !w.domain.mode.ModeInvalid?
  }

  lemma {:induction false} SuccessSettles(w: World, g: Targets, luck: Luck)
    requires Converge(w, Some(g), luck).1
    ensures Settled(Converge(w, Some(g), luck).0, g)
  {
    ConvergeSpec(w, g, luck);
    ValidMode(w, g, luck);
    hide Converge, Values, Others, Get, Selects;
  }

  lemma {:induction false} ValidMode(w: World, g: Targets, luck: Luck)
    requires Converge(w, Some(g), luck).1
    ensures !w.domain.mode.ModeInvalid? && Converge(w, Some(g), luck).0.domain.mode == w.domain.mode
  {
    ConvergeSpec(w, g, luck);
    DisableAllSpec(w.(domain := Aimed(w.domain, g)), Previous(w.domain), luck);
    hide DisableAll, Disable, ReconcileRecord;
  }

  lemma {:induction false} RecordAllQuiet(w: World, g: Targets, luck: Luck)
    requires Settled(w, g)
    ensures var (v, ok) := RecordAll(w, g, luck);
            v.zone == w.zone && v.writes == w.writes && Settled(v, g)
            && ((forall t: RecordType :: luck(FirstLookup, t) == Fine) ==> ok)
  {
    hide SameElsewhere, ReconcileRecord, Values, Others, Get, Before;
    match w.domain.mode
    case ModeA => RecordOne(w, A, g.a, luck);
    case ModeAAAA => RecordOne(w, AAAA, g.aaaa, luck);
    case ModeDual =>
      RecordOne(w, A, g.a, luck);
      RecordOne(ReconcileRecord(w, A, g.a, luck).0, AAAA, g.aaaa, luck);
    case ModeCNAME => RecordOne(w, CNAME, g.cname, luck);
    case ModeInvalid =>
  }

  /** Once settled, a run writes nothing, even if its reads fail, and stays settled. */
  lemma {:induction false} SettledQuiet(w: World, g: Targets, luck: Luck)
    requires Settled(w, g)
    ensures var (v, ok) := Converge(w, Some(g), luck);
            v.zone == w.zone && v.writes == w.writes && Settled(v, g)
            && ((forall t: RecordType :: luck(FirstLookup, t) == Fine) ==> ok)
  {
    var aimed := w.(domain := Aimed(w.domain, g));
    AimedSlots(w.domain, g, A);
    AimedSlots(w.domain, g, AAAA);
    AimedSlots(w.domain, g, CNAME);
    DisableAllSpec(aimed, Previous(w.domain), luck);
    var v := DisableAll(aimed, Previous(w.domain), luck).0;
    assert Settled(v, g) by {
      hide DisableAll, Values, Others, Aimed;
    }
    RecordAllQuiet(v, g, luck);
    hide DisableAll, RecordAll, Values, Others, Get, Selects, Settled, Aimed;
  }

  datatype Turn = Turn(luck: Luck, saves: bool)

  function Runs(w: World, g: Targets, turns: seq<Turn>): World
    decreases |turns|
  {
    if turns == [] then w else Runs(Reconcile(w, Some(g), turns[0].luck, turns[0].saves).0, g, turns[1..])
  }

  ghost predicate StoredSettled(w: World, g: Targets) {
    Settled(w.(domain := w.stored), g)
  }

  lemma {:induction false} MarkedSettled(w: World, g: Targets, ok: bool)
    requires Settled(w, g)
    ensures Settled(w.(domain := Marked(w.domain, ok)), g)
  {
    hide Values, Others;
  }

  lemma {:induction false} SettledReconcile(w: World, g: Targets, luck: Luck, saves: bool)
    requires StoredSettled(w, g)
    ensures var v := Reconcile(w, Some(g), luck, saves).0;
            v.zone == w.zone && v.writes == w.writes && StoredSettled(v, g)
  {
    var loaded := w.(domain := w.stored);
    SettledQuiet(loaded, g, luck);
    ConvergeSpec(loaded, g, luck);
    var (v, ok) := Converge(loaded, Some(g), luck);
    MarkedSettled(v, g, ok);
    hide Converge, Marked, Get, Selects, Others;
    assert v.stored == w.stored;
    SettledView(v.(domain := Marked(v.domain, ok)), g);
    SettledView(v.(domain := v.stored), g);
  }

  /** Being settled looks at the zone and the domain only. */
  lemma {:induction false} SettledView(w: World, g: Targets)
    ensures forall v: World | v.zone == w.zone && v.domain == w.domain :: Settled(v, g) == Settled(w, g)
  {
    hide Values, Get, Selects;
  }

  /** After one successful, saved reconcile, no later run against the same targets ever writes to
      the provider, whatever fails. */
  lemma {:induction false} QuietAfterSuccess(w: World, g: Targets, luck: Luck, turns: seq<Turn>)
    requires Reconcile(w, Some(g), luck, true).1
    ensures var v := Reconcile(w, Some(g), luck, true).0;
            Runs(v, g, turns).zone == v.zone && Runs(v, g, turns).writes == v.writes
  {
    var loaded := w.(domain := w.stored);
    SuccessSettles(loaded, g, luck);
    var (u, ok) := Converge(loaded, Some(g), luck);
    MarkedSettled(u, g, ok);
    hide Converge, Marked, Settled;
    var v := Reconcile(w, Some(g), luck, true).0;
    SettledView(u.(domain := Marked(u.domain, ok)), g);
    QuietForever(v, g, turns);
  }

  lemma {:induction false} QuietForever(w: World, g: Targets, turns: seq<Turn>)
    requires StoredSettled(w, g)
    ensures Runs(w, g, turns).zone == w.zone && Runs(w, g, turns).writes == w.writes
    decreases |turns|
  {
    hide Reconcile, StoredSettled;
    if turns != [] {
      SettledReconcile(w, g, turns[0].luck, turns[0].saves);
      QuietForever(Reconcile(w, Some(g), turns[0].luck, turns[0].saves).0, g, turns[1..]);
    }
  }

  // ----- Where the records and what the domain remembers part -----

  /** The created flag is raised before the write is known to have happened: it tells the truth
      exactly when the write took effect. */
  lemma {:induction false} FlagBeforeWrite(w: World, t: RecordType, desired: string, luck: Luck)
    requires Managed(t) && desired != "" && luck(FirstLookup, t).Fine? && Before(w, t) == {}
    ensures var v := ReconcileRecord(w, t, desired, luck).0;
            Get(v.domain, t).created && (desired in Before(v, t) <==> !luck(Write, t).Fails?)
  {
    RecordSpec(w, t, desired, luck);
    LookupValues(w.zone, w.domain.name, t);
    UpsertSpec(w.zone, Record(w.domain.name, t, desired, w.domain.ttl), luck(WriteRead, t), luck(Write, t));
    UpsertedValues(w.zone, Record(w.domain.name, t, desired, w.domain.ttl));
    hide Values, Others, Upserted, Matching, RecordValues;
  }

  lemma {:induction false} FailedDelete(w: World, g: Targets, t: RecordType, luck: Luck)
    requires Managed(t) && Removes(w, t, Get(w.domain, t).desired) && Get(w.domain, t).desired in Before(w, t)
    requires !luck(CleanupRead, t).Fine? || luck(CleanupWrite, t).Fails?
    ensures var (v, ok) := Converge(w, Some(g), luck);
            && !ok && Before(v, t) == Before(w, t) && Get(v.domain, t) == Get(w.domain, t).(desired := Target(g, t))
            && v.domain.mode == w.domain.mode && v.domain.name == w.domain.name
  {
    var d := w.domain;
    var aimed := w.(domain := Aimed(d, g));
    var (a, first) := Disable(aimed, A, d.a.desired, luck);
    DisableSpec(aimed, A, d.a.desired, luck);
    Elsewhere(aimed, a, A);
    var (b, second) := Disable(a, AAAA, d.aaaa.desired, luck);
    DisableSpec(a, AAAA, d.aaaa.desired, luck);
    Elsewhere(a, b, AAAA);
    assert Get(aimed.domain, t) == Get(d, t).(desired := Target(g, t));
    hide Disable, Values, Others, Selects, RecordAll, SameElsewhere;
    match t
    case A => StopsAt(aimed, A, d.a.desired, luck);
    case AAAA => StopsAt(a, AAAA, d.aaaa.desired, luck);
    case CNAME => StopsAt(b, CNAME, d.cname.desired, luck);
  }

  lemma {:induction false} StopsAt(w: World, t: RecordType, previous: string, luck: Luck)
    requires Managed(t) && Removes(w, t, previous) && previous in Before(w, t)
    requires !luck(CleanupRead, t).Fine? || luck(CleanupWrite, t).Fails?
    ensures var (v, ok) := Disable(w, t, previous, luck); !ok && v.zone == w.zone && v.domain == w.domain
  {
    ValueThere(w.zone, w.domain.name, t, previous);
    hide Matching, Dropping, Values, Selects, Put, Others;
  }

  /** A deletion that fails is not retried: the failed run stores the new target in place of the
      value to delete, and the next run, which succeeds, removes the old record exactly when the
      two are the same. Either way the Panel no longer regards it as its own. */
  lemma {:induction false} FailedDeleteForgotten(w: World, g: Targets, t: RecordType, luck: Luck, again: Luck)
    requires Managed(t) && !Selects(w.stored.mode, t) && Get(w.stored, t).created && Get(w.stored, t).desired != ""
    requires Get(w.stored, t).desired in Values(w.zone, w.stored.name, t)
    requires !luck(CleanupRead, t).Fine? || luck(CleanupWrite, t).Fails?
    requires Reconcile(Reconcile(w, Some(g), luck, true).0, Some(g), again, true).1
    ensures var v := Reconcile(Reconcile(w, Some(g), luck, true).0, Some(g), again, true).0;
            && (Get(w.stored, t).desired in Values(v.zone, w.stored.name, t) <==> Target(g, t) != Get(w.stored, t).desired)
            && !Get(v.stored, t).created
  {
    var loaded := w.(domain := w.stored);
    FailedDelete(loaded, g, t, luck);
    var second := Reconcile(w, Some(g), luck, true).0;
    assert Get(second.stored, t) == Get(w.stored, t).(desired := Target(g, t));
    ConvergeSpec(second.(domain := second.stored), g, again);
    hide Converge, Values, Others;
  }

  /** Deleting a managed domain removes the address records the Panel created and leaves every
      other name, and every alias, as it is. */
  lemma {:induction false} CleanupSpec(w: World, luck: Luck)
    ensures var (v, ok) := Cleanup(w, luck);
            var d := w.stored;
            && Others(v.zone, d.name) == Others(w.zone, d.name)
            && Values(v.zone, d.name, CNAME) == Values(w.zone, d.name, CNAME)
            && Values(v.zone, d.name, TXT) == Values(w.zone, d.name, TXT)
            && (ok ==> Values(v.zone, d.name, A) == Values(w.zone, d.name, A) - (if d.a.created && d.a.desired != "" then {d.a.desired} else {}))
            && (ok ==> Values(v.zone, d.name, AAAA) == Values(w.zone, d.name, AAAA) - (if d.aaaa.created && d.aaaa.desired != "" then {d.aaaa.desired} else {}))
  {
    var d := w.stored;
    var y := if d.a.created && d.a.desired != "" then Delete(w.zone, d.name, A, d.a.desired, luck(CleanupRead, A), luck(CleanupWrite, A)).0 else w.zone;
    if d.a.created && d.a.desired != "" {
      DeleteSpec(w.zone, d.name, A, d.a.desired, luck(CleanupRead, A), luck(CleanupWrite, A));
    }
    if d.aaaa.created && d.aaaa.desired != "" {
      DeleteSpec(y, d.name, AAAA, d.aaaa.desired, luck(CleanupRead, AAAA), luck(CleanupWrite, AAAA));
    }
    hide Delete, Values, Others;
  }

  /** A record the Panel created and still wants. */
  ghost predicate Left(z: Zone, d: Domain, t: RecordType) {
    Get(d, t).created && Get(d, t).desired != "" && Get(d, t).desired in Values(z, d.name, t)
  }

  /** So a successful clean-up leaves nothing of the Panel's behind exactly when the domain was not
      an alias it had created. */
  lemma {:induction false} CleanupCompleteIff(w: World, luck: Luck)
    requires Cleanup(w, luck).1
    ensures var z := Cleanup(w, luck).0.zone;
            (!Left(z, w.stored, A) && !Left(z, w.stored, AAAA) && !Left(z, w.stored, CNAME)) <==> !Left(w.zone, w.stored, CNAME)
  {
    CleanupSpec(w, luck);
    hide Cleanup, Values, Others;
  }
}
