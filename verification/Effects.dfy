/** The table before and after one committed handler, key by key. */
module Effects {
  import opened Ledger
  import opened Keys
  import opened Items
  import opened Ordering
  import opened Handlers
  import opened FlowFacts
  import opened Journals
  import opened Writes
  import opened Serializability
  import opened Atomic

  /** Handler `r`, alone on `t`, commits and leaves `u`. */
  ghost predicate Takes(r: Request, env: Env, t: Table, u: Table) {
    Sound(t) && Alone(r, env, t).answer.Ok? && Alone(r, env, t).wrote == Some(u)
  }

  lemma {:induction false} TakesParts(r: Request, env: Env, t: Table, u: Table)
    requires Takes(r, env, t, u)
    ensures Sound(t) && Alone(r, env, t).answer.Ok? && Alone(r, env, t).wrote == Some(u)
  {
  }

  /** The flow a handler posts on `t`, parsed; None when it posts nothing (an account creation, or a
      reservation handler whose inner flow is a replay). */
  function PostedBy(r: Request, env: Env, t: Table): Option<FlowReq> {
    match WayOf(r, t)
    case Ends(_) => None
    case Flows(raw, _) => if FlowSpec(env, raw, t).FlowPosted? then Some(Parsed(raw)) else None
  }

  /** Writes after the inner flow. */
  function TailWrites(r: Request, env: Env, row: Option<HeldRow>, fres: FlowResult): seq<Write>
    requires !fres.FlowFail?
  {
    if r.CreateReservation? then CreateWrites(r, env, UsedOf(fres), fres.run.id)
    else if Updates(r) && row.Some?
      then UpdateWrites(r, row.value, Updated(r, row.value.res), UpdatedEvent(r, env.Id(UsedOf(fres)), row.value.res))
    else []
  }

  function StepAll(r: Request, env: Env, t: Table): seq<Write> {
    match WayOf(r, t)
    case Ends(out) => if out.Done? then out.writes else []
    case Flows(raw, row) =>
      var fres := FlowSpec(env, raw, t);
      if fres.FlowFail? then [] else WritesOf(fres) + TailWrites(r, env, row, fres)
  }

  lemma {:induction false} AfterIs(r: Request, env: Env, row: Option<HeldRow>, fres: FlowResult)
    requires After(r, env, row, fres).Done?
    ensures !fres.FlowFail? && After(r, env, row, fres).writes == WritesOf(fres) + TailWrites(r, env, row, fres)
  {
    if r.CreateReservation? {
      AfterCreates(r, env, row, fres);
    } else if Updates(r) {
      AfterUpdates(r, env, row.value, fres);
    }
  }

  lemma {:induction false} TakesSound(r: Request, env: Env, t: Table, u: Table)
    requires Takes(r, env, t, u)
    ensures Sound(t)
  {
  }

  /** A committed handler wrote exactly `StepAll`, all conditions holding. */
  lemma {:induction false} TakesIs(r: Request, env: Env, t: Table, u: Table)
    requires Takes(r, env, t, u)
    ensures AllHold(t, AddAll(Empty, StepAll(r, env, t)))
    ensures u == Written(t, AddAll(Empty, StepAll(r, env, t)))
    ensures WayOf(r, t).Flows? ==> !FlowSpec(env, WayOf(r, t).raw, t).FlowFail?
    ensures WayOf(r, t).Ends? ==> r.CreateAccount?
  {
    hide FlowSpec, TailWrites, WritesOf, AllHold, Written, After, Alone, WayOf, Classify;
    AloneIs(r, env, t);
    var way := WayOf(r, t);
    if way.Flows? {
      AfterIs(r, env, way.row, FlowSpec(env, way.raw, t));
    } else {
      EndsEarly(r, t);
    }
  }

  lemma {:induction false} EndsEarly(r: Request, t: Table)
    requires WayOf(r, t).Ends?
    ensures r.CreateAccount? || WayOf(r, t).out.Fail? || WayOf(r, t).out.writes == []
  {
    hide CreateFlow, CommitFlow, ReleaseFlow, ExpireFlow, AccountWrites, NewAccount;
  }

  /** Rows after the step, from the writes. */
  lemma {:induction false} StepLookup(r: Request, env: Env, t: Table, u: Table, k: Key)
    requires Takes(r, env, t, u)
    ensures var ws := StepAll(r, env, t);
            Lookup(u, k) == if LastItem(ws, k).Some? then LastItem(ws, k) else Lookup(t, k)
    ensures FirstCond(StepAll(r, env, t), k) == Some(NotExists) ==> k !in t
    ensures FirstCond(StepAll(r, env, t), k).Some? ==> CondHolds(t, k, FirstCond(StepAll(r, env, t), k).value)
  {
    hide StepAll, Written, Takes;
    TakesIs(r, env, t, u);
    var ws := StepAll(r, env, t);
    WrittenLookup(t, ws, k);
    Coalesced(ws, k);
  }

  predicate TailKind(k: Key) {
    k.ResK? || k.RIdempK? || k.ObxK?
  }

  lemma {:induction false} TailKinds(r: Request, env: Env, row: Option<HeldRow>, fres: FlowResult)
    requires !fres.FlowFail?
    ensures forall w | w in TailWrites(r, env, row, fres) :: TailKind(w.key)
  {
    hide ReservationToItem, NewReservation;
  }

  /** For keys of the flow's own kinds, a step is its posted flow. */
  lemma {:induction false} StepIsFlow(r: Request, env: Env, t: Table, k: Key)
    requires WayOf(r, t).Flows? && !FlowSpec(env, WayOf(r, t).raw, t).FlowFail? && !TailKind(k)
    ensures var fres := FlowSpec(env, WayOf(r, t).raw, t);
            LastItem(StepAll(r, env, t), k) == LastItem(WritesOf(fres), k)
            && FirstCond(StepAll(r, env, t), k) == FirstCond(WritesOf(fres), k)
  {
    hide FlowSpec, WayOf, TailWrites, WritesOf;
    var fres := FlowSpec(env, WayOf(r, t).raw, t);
    var tail := TailWrites(r, env, WayOf(r, t).row, fres);
    TailKinds(r, env, WayOf(r, t).row, fres);
    NotWritten(tail, k);
    LastItemConcat(WritesOf(fres), tail, k);
    FirstCondConcat(WritesOf(fres), tail, k);
  }

  lemma {:induction false} PostedIs(env: Env, raw: FlowReq, t: Table)
    requires FlowSpec(env, raw, t).FlowPosted?
    ensures var fr := Parsed(raw); var loaded := LoadedAll(t, fr.tenant, RefsOf(fr));
            && AmountsOk(raw.steps)
            && FlowSpec(env, raw, t) == Post(env, fr, loaded)
            && FirstProblem(t, fr.tenant, RefsOf(fr)) == None
            && WritesOf(FlowSpec(env, raw, t)) == FlowWrites(env, fr, loaded)
            && (forall i | 0 <= i < |fr.steps| :: StepOk(fr.steps[i]))
            && (forall i | 0 <= i < |loaded| :: !Overdrawn(fr, loaded[i], RefsOf(fr)[i]))
            && KnownFlow(t, fr.tenant, fr.key) == None
  {
    hide AmountsOk, RefsOf, FlowWrites, StepOk, Overdrawn, LoadedAt, FirstProblem, ParseSteps;
  }

  /** Writes to `k` of the flow a step posts; without a posted flow there are none. */
  function FlowPart(r: Request, env: Env, t: Table): seq<Write> {
    var p := PostedBy(r, env, t);
    if p.Some? then FlowWrites(env, p.value, LoadedAll(t, p.value.tenant, RefsOf(p.value))) else []
  }

  /** Keys a flow may write: for them the step is the posted flow and nothing else, except that account
      creation writes account rows. */
  lemma {:induction false} FlowPartIs(r: Request, env: Env, t: Table, u: Table, k: Key)
    requires Takes(r, env, t, u) && !TailKind(k) && !k.AccK? && !k.AccUK?
    ensures Lookup(u, k) == if LastItem(FlowPart(r, env, t), k).Some? then LastItem(FlowPart(r, env, t), k)
        else Lookup(t, k)
    ensures FirstCond(FlowPart(r, env, t), k).Some? ==> CondHolds(t, k, FirstCond(FlowPart(r, env, t), k).value)
  {
    hide FlowSpec, TailWrites, Takes, RefsOf, FlowWrites;
    TakesIs(r, env, t, u);
    StepLookup(r, env, t, u, k);
    var way := WayOf(r, t);
    if way.Flows? {
      StepIsFlow(r, env, t, k);
      if FlowSpec(env, way.raw, t).FlowPosted? {
        PostedIs(env, way.raw, t);
      }
    } else {
      NotWritten(StepAll(r, env, t), k);
    }
  }

  // ------------------------------------------------------------------------------------------
  // Kind by kind
  // ------------------------------------------------------------------------------------------

  /** The balance row a posted flow leaves: the old sums plus what the flow's entries add, one version
      later. */
  function NewBalance(t: Table, fr: FlowReq, ref: BalRef): Item {
    var (d, c, ver) := BalanceRead(Lookup(t, BalKey(fr.tenant, ref)));
    var es := AllEntries(fr.steps);
    BalItem(d + Sum(es, ref, true), c + Sum(es, ref, false), ver + 1)
  }

  lemma {:induction false} StepBalance(r: Request, env: Env, t: Table, u: Table, tenant: string, ref: BalRef)
    requires Takes(r, env, t, u)
    ensures var k := BalKey(tenant, ref); var p := PostedBy(r, env, t);
            Lookup(u, k) == if p.Some? && p.value.tenant == tenant && ref in RefsOf(p.value)
                            then Some(NewBalance(t, p.value, ref)) else Lookup(t, k)
  {
    hide Takes, PostedBy, RefsOf, FlowWrites, Sum, AllEntries;
    var k := BalKey(tenant, ref);
    var p := PostedBy(r, env, t);
    FlowPartIs(r, env, t, u, k);
    if p.Some? {
      var fr := p.value;
      var loaded := LoadedAll(t, fr.tenant, RefsOf(fr));
      if fr.tenant == tenant && ref in RefsOf(fr) {
        var j :| 0 <= j < |RefsOf(fr)| && RefsOf(fr)[j] == ref;
        FlowWritesBalance(env, fr, loaded, j);
      } else {
        FlowSkipsBalance(env, fr, loaded, k);
      }
    }
  }

  lemma {:induction false} StepMarker(r: Request, env: Env, t: Table, u: Table, tenant: string, key: string)
    requires Takes(r, env, t, u)
    ensures var k := FIdempK(tenant, key); var p := PostedBy(r, env, t);
            if p.Some? && p.value.tenant == tenant && p.value.key == key
            then k !in t && Lookup(u, k) == Some(FIdempItem(FlowId(env))) else Lookup(u, k) == Lookup(t, k)
  {
    hide Takes, PostedBy, RefsOf, FlowWrites;
    var k := FIdempK(tenant, key);
    var p := PostedBy(r, env, t);
    FlowPartIs(r, env, t, u, k);
    if p.Some? {
      FlowWritesMarker(env, p.value, LoadedAll(t, p.value.tenant, RefsOf(p.value)), k);
    }
  }

  /** Accounts never change once they exist. */
  lemma {:induction false} StepAccount(r: Request, env: Env, t: Table, u: Table, tenant: string, account: string)
    requires Takes(r, env, t, u)
    ensures var k := AccK(tenant, account);
            if r.CreateAccount? && k == AccK(NewAccount(r).tenantId, NewAccount(r).id)
            then k !in t && Lookup(u, k) == Some(AccItem(NewAccount(r))) else Lookup(u, k) == Lookup(t, k)
  {
    hide Takes, RefsOf, FlowWrites, FlowSpec, TailWrites, NewAccount;
    var k := AccK(tenant, account);
    TakesIs(r, env, t, u);
    StepLookup(r, env, t, u, k);
    var way := WayOf(r, t);
    if way.Flows? {
      StepIsFlow(r, env, t, k);
      if FlowSpec(env, way.raw, t).FlowPosted? {
        PostedIs(env, way.raw, t);
        var fr := Parsed(way.raw);
        FlowLeavesAlone(env, fr, LoadedAll(t, fr.tenant, RefsOf(fr)), k);
      }
    } else {
      AccountWritesAt(NewAccount(r), k);
    }
  }

  lemma {:induction false} AccountWritesAt(a: Account, k: Key)
    requires k.AccK?
    ensures LastItem(AccountWrites(a), k) == if k == AccK(a.tenantId, a.id) then Some(AccItem(a)) else None
    ensures FirstCond(AccountWrites(a), k) == if k == AccK(a.tenantId, a.id) then Some(NotExists) else None
  {
    var ws := AccountWrites(a);
    assert ws[..1] == [ws[0]] && ws[..1][..0] == [];
    NotWritten([], k);
  }

  /** A posted flow adds its journals under new keys; journals never change. */
  lemma {:induction false} StepJournal(r: Request, env: Env, t: Table, u: Table, k: Key)
    requires Takes(r, env, t, u) && k.JrnK? && DistinctIds(env)
    ensures k in t ==> Lookup(u, k) == Lookup(t, k)
    ensures k in u && k !in t ==>
              var p := PostedBy(r, env, t);
              p.Some? && exists i: nat ::
                i < |p.value.steps| && k == JournalKey(env, p.value, i) && u[k] == JrnItem(FullJournal(env, p.value, i))
    ensures var p := PostedBy(r, env, t);
            p.Some? ==> forall i: nat ::
              i < |p.value.steps| && k == JournalKey(env, p.value, i) ==>
                k !in t && Lookup(u, k) == Some(JrnItem(FullJournal(env, p.value, i)))
  {
    hide Takes, PostedBy, RefsOf, FlowWrites, JournalId, FullJournal, DistinctIds;
    FlowPartIs(r, env, t, u, k);
    var p := PostedBy(r, env, t);
    if p.Some? {
      var fr := p.value;
      var loaded := LoadedAll(t, fr.tenant, RefsOf(fr));
      FlowIsSteps(env, fr, loaded, k);
      if i: nat :| i < |fr.steps| && k == JournalKey(env, fr, i) {
        StepsWritesJournal(env, fr, |fr.steps|, i);
        FlowConds(env, fr, loaded, k);
        forall j: nat | j < |fr.steps| && k == JournalKey(env, fr, j) ensures j == i {
          JournalIdsDistinct(env, fr, i, j);
        }
      } else {
        StepsWritesNoJournal(env, fr, |fr.steps|, k);
      }
    }
  }

  /** A posted flow adds its own row, completed; flow rows never change. */
  lemma {:induction false} StepFlowRow(r: Request, env: Env, t: Table, u: Table, k: Key)
    requires Takes(r, env, t, u) && k.FlowK?
    ensures var p := PostedBy(r, env, t);
            if p.Some? && k == FlowK(p.value.tenant, FlowId(env))
            then k !in t && Lookup(u, k)
              == Some(FlowItem(RunOf(env, p.value, Completed), StepRows(env, p.value, |p.value.steps|)))
            else Lookup(u, k) == Lookup(t, k)
  {
    hide Takes, PostedBy, RefsOf, FlowWrites, RunOf, StepRows;
    FlowPartIs(r, env, t, u, k);
    var p := PostedBy(r, env, t);
    if p.Some? {
      var fr := p.value;
      var loaded := LoadedAll(t, fr.tenant, RefsOf(fr));
      FlowRow(env, fr, loaded, k);
      if k == FlowK(fr.tenant, FlowId(env)) {
        FlowConds(env, fr, loaded, k);
      }
    }
  }

  /** Event markers are added for exactly the posted events, none of which was there. */
  lemma {:induction false} StepEvent(r: Request, env: Env, t: Table, u: Table, event: string)
    requires Takes(r, env, t, u)
    ensures var k := EvtK(event); var p := PostedBy(r, env, t);
            if p.Some? && exists i: nat :: i < |p.value.steps| && p.value.steps[i].eventId == event
            then k !in t && k in u else Lookup(u, k) == Lookup(t, k)
  {
    hide Takes, PostedBy, RefsOf, FlowWrites;
    var k := EvtK(event);
    FlowPartIs(r, env, t, u, k);
    var p := PostedBy(r, env, t);
    if p.Some? {
      var fr := p.value;
      var loaded := LoadedAll(t, fr.tenant, RefsOf(fr));
      FlowIsSteps(env, fr, loaded, k);
      StepsWritesEvent(env, fr, |fr.steps|, event);
      if LastItem(FlowWrites(env, fr, loaded), k).Some? {
        FlowConds(env, fr, loaded, k);
      }
    }
  }

  /** With distinct event ids, each of them then names the journal posted for it. */
  lemma {:induction false} EventNamesJournal(r: Request, env: Env, t: Table, u: Table, i: nat)
    requires Takes(r, env, t, u) && PostedBy(r, env, t).Some? && i < |PostedBy(r, env, t).value.steps|
    requires var steps := PostedBy(r, env, t).value.steps;
             forall j, k | 0 <= j < k < |steps| :: steps[j].eventId != steps[k].eventId
    ensures var fr := PostedBy(r, env, t).value;
            Lookup(u, EvtK(fr.steps[i].eventId)) == Some(EvtItem(JournalId(env, fr, i)))
  {
    hide Takes, PostedBy, RefsOf, FlowWrites, JournalId;
    var fr := PostedBy(r, env, t).value;
    var k := EvtK(fr.steps[i].eventId);
    FlowPartIs(r, env, t, u, k);
    FlowIsSteps(env, fr, LoadedAll(t, fr.tenant, RefsOf(fr)), k);
    StepsWritesMarker(env, fr, |fr.steps|, i);
  }

  /** A posted flow was acceptable: its journals are valid, its accounts exist with the right currency,
      and no balance it leaves is overdrawn. */
  lemma {:induction false} PostedOk(r: Request, env: Env, t: Table)
    requires PostedBy(r, env, t).Some?
    ensures var fr := PostedBy(r, env, t).value;
            && (forall i | 0 <= i < |fr.steps| :: StepOk(fr.steps[i]))
            && (forall ref | ref in RefsOf(fr) ::
                  Problem(t, fr.tenant, ref) == None && !Overdrawn(fr, LoadedAt(t, fr.tenant, ref), ref))
  {
    hide FlowSpec, StepOk, Overdrawn, RefsOf, Problem, LoadedAt;
    var raw := WayOf(r, t).raw;
    var fr := Parsed(raw);
    PostedIs(env, raw, t);
    NoProblem(t, fr.tenant, RefsOf(fr));
    var loaded := LoadedAll(t, fr.tenant, RefsOf(fr));
    forall ref | ref in RefsOf(fr) ensures !Overdrawn(fr, LoadedAt(t, fr.tenant, ref), ref) {
      var j :| 0 <= j < |RefsOf(fr)| && RefsOf(fr)[j] == ref;
      assert loaded[j] == LoadedAt(t, fr.tenant, ref);
    }
  }

  lemma {:induction false} NoProblem(t: Table, tenant: string, rs: seq<BalRef>)
    ensures FirstProblem(t, tenant, rs) == None <==> forall ref | ref in rs :: Problem(t, tenant, ref) == None
  {
    hide Problem;
    if rs != [] {
      NoProblem(t, tenant, rs[1..]);
      assert rs == [rs[0]] + rs[1..];
      if Problem(t, tenant, rs[0]).Some? {
        assert rs[0] in rs;
      }
    }
  }
}
