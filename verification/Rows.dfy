/** What a committed handler stores and answers, field by field: the rows as a reader of the table finds them, and
    the response as the client reads it. */
module Rows {
  import opened Ledger
  import opened Keys
  import opened Items
  import opened Ordering
  import opened Handlers
  import opened Writes
  import opened Reads
  import opened Serializability
  import opened Atomic
  import opened Journals
  import opened Effects
  import opened Holds
  import opened Reserved
  import opened Outbox
  import opened Replay

  // ------------------------------------------------------------------------------------------
  // Accounts
  // ------------------------------------------------------------------------------------------

  /** An account creation adds the account under its formatted id, active, and the marker that names it; neither
      was there, and the account is the answer. */
  lemma {:induction false} AccountStored(r: Request, env: Env, t: Table, u: Table)
    requires Takes(r, env, t, u) && r.CreateAccount?
    ensures var id := r.ownerType + ":" + r.ownerId + ":" + r.accountType + ":" + r.currency;
            var a := Account(id, r.tenant, r.ownerType, r.ownerId, r.accountType, r.currency, r.normalBalance,
                       r.allowNegative, AccountStatus.Active);
            var marker := AccUK(r.tenant, r.ownerType, r.ownerId, r.accountType, r.currency);
            && AccK(r.tenant, id) !in t && Lookup(u, AccK(r.tenant, id)) == Some(AccItem(a))
            && marker !in t && Lookup(u, marker) == Some(AccUItem(id))
            && Alone(r, env, t).answer == Ok(AccountResponse(a))
  {
    hide AddAll, AllHold, Written, Alone, Classify;
    TakesParts(r, env, t, u);
    AloneIs(r, env, t);
    var ws := AccountWrites(NewAccount(r));
    assert ws == [ws[0], ws[1]];
    forall k | k == ws[0].key || k == ws[1].key ensures k !in t && Lookup(u, k) == LastItem(ws, k) {
      LastOfTwo(ws[0], ws[1], k);
      TwoConds(ws[0], ws[1], k);
      StepLookup(r, env, t, u, k);
    }
    LastOfTwo(ws[0], ws[1], ws[0].key);
    LastOfTwo(ws[0], ws[1], ws[1].key);
  }

  lemma {:induction false} TwoConds(v: Write, w: Write, k: Key)
    requires v.cond == NotExists && w.cond == NotExists && (k == v.key || k == w.key)
    ensures FirstCond([v, w], k) == Some(NotExists)
  {
    assert [v, w][..1] == [v];
    assert FirstCond([v], k) == if k == v.key then Some(v.cond) else None;
  }

  // ------------------------------------------------------------------------------------------
  // Flows
  // ------------------------------------------------------------------------------------------

  /** The journal of step `i` as submitted: any direction but CREDIT is a debit. */
  predicate PostedAs(submitted: seq<Entry>, posted: seq<Entry>) {
    |posted| == |submitted|
    && forall j | 0 <= j < |submitted| ::
         && posted[j].accountId == submitted[j].accountId && posted[j].currency == submitted[j].currency
         && posted[j].amount == submitted[j].amount
         && posted[j].direction == if submitted[j].direction == Credit then Credit else Debit
  }

  /** Step `i` of a stored flow: the row names the step and its journal, and the journal has the flow's id, the
      step's event and its entries. */
  ghost predicate StepStored(u: Table, raw: FlowReq, flowId: string, i: nat, row: FlowStep) {
    i < |raw.steps| && row.stepId == raw.steps[i].stepId
    && var j := Lookup(u, JrnK(raw.tenant, row.journalId));
       && j.Some? && j.value.JrnItem?
       && j.value.journal.id == row.journalId && j.value.journal.tenantId == raw.tenant
       && j.value.journal.flowRunId == flowId && j.value.journal.eventId == raw.steps[i].eventId
       && PostedAs(raw.steps[i].entries, j.value.journal.entries)
  }

  /** An outbox event says this of this aggregate. */
  ghost predicate Announced(u: Table, tenant: string, aggregate: string, kind: string, key: string) {
    exists id :: Lookup(u, ObxK(id)) == Some(ObxItem(Event(id, tenant, aggregate, kind, key)))
  }

  /** The event of a step waits in the outbox. */
  ghost predicate StepAnnounced(u: Table, raw: FlowReq, flowId: string, i: nat) {
    i < |raw.steps|
    && Announced(u, raw.tenant, flowId, raw.flowType + "." + raw.steps[i].stepId, flowId + ":" + raw.steps[i].stepId)
  }

  /** A complete flow: marker, completed row, and for every submitted step its row, journal and event. */
  ghost predicate FlowStored(u: Table, raw: FlowReq, flowId: string, rows: seq<FlowStep>) {
    && Lookup(u, FIdempK(raw.tenant, raw.key)) == Some(FIdempItem(flowId))
    && Lookup(u, FlowK(raw.tenant, flowId))
         == Some(FlowItem(FlowRun(flowId, raw.tenant, raw.flowType, raw.key, Completed), rows))
    && |rows| == |raw.steps|
    && forall i: nat | i < |rows| :: StepStored(u, raw, flowId, i, rows[i]) && StepAnnounced(u, raw, flowId, i)
  }

  lemma {:induction false} ParsedAs(raw: FlowReq, i: nat)
    requires i < |raw.steps|
    ensures var fr := Parsed(raw);
            && |fr.steps| == |raw.steps| && fr.tenant == raw.tenant && fr.flowType == raw.flowType && fr.key == raw.key
            && fr.steps[i].stepId == raw.steps[i].stepId && fr.steps[i].eventId == raw.steps[i].eventId
            && PostedAs(raw.steps[i].entries, fr.steps[i].entries)
  {
  }

  lemma {:induction false} StepRowsStored(r: Request, env: Env, t: Table, u: Table, raw: FlowReq, i: nat)
    requires Takes(r, env, t, u) && DistinctIds(env) && PostedBy(r, env, t) == Some(Parsed(raw)) && i < |raw.steps|
    ensures var fr := Parsed(raw);
            && i < |fr.steps| && StepStored(u, raw, FlowId(env), i, StepRow(env, fr, i))
            && StepAnnounced(u, raw, FlowId(env), i)
  {
    hide Takes, PostedBy, DistinctIds, ParseSteps, PostedAs, StepBase, OwnEvent;
    var fr := Parsed(raw);
    ParsedAs(raw, i);
    StepJournal(r, env, t, u, JournalKey(env, fr, i));
    var e := EventOf(env, fr, i);
    assert Announces(r, env, t, e);
    CommitLeavesEvents(r, env, t, u, e);
    FullIs(env, fr, i);
  }

  lemma {:induction false} FullIs(env: Env, fr: FlowReq, i: nat)
    requires i < |fr.steps|
    ensures FullJournal(env, fr, i).entries == fr.steps[i].entries
  {
    hide JournalId;
  }

  /** With distinct event ids, each event's marker names the journal stored for its step. */
  lemma {:induction false} MarkersStored(r: Request, env: Env, t: Table, u: Table, raw: FlowReq, i: nat)
    requires Takes(r, env, t, u) && PostedBy(r, env, t) == Some(Parsed(raw)) && i < |raw.steps|
    requires forall j, k | 0 <= j < k < |raw.steps| :: raw.steps[j].eventId != raw.steps[k].eventId
    ensures i < |Parsed(raw).steps|
    ensures Lookup(u, EvtK(raw.steps[i].eventId)) == Some(EvtItem(StepRow(env, Parsed(raw), i).journalId))
  {
    hide Takes, PostedBy, PostedAs, StepBase;
    EventNamesJournal(r, env, t, u, i);
  }

  /** A committed handler that posts a flow stores it completely. */
  lemma {:induction false} PostedStored(r: Request, env: Env, t: Table, u: Table, raw: FlowReq)
    requires Takes(r, env, t, u) && DistinctIds(env) && PostedBy(r, env, t) == Some(Parsed(raw))
    ensures FlowStored(u, raw, FlowId(env), StepRows(env, Parsed(raw), |Parsed(raw).steps|))
    ensures FIdempK(raw.tenant, raw.key) !in t
  {
    hide Takes, PostedBy, DistinctIds, StepStored, StepAnnounced, StepRow, StepRows, ParseSteps, FlowId;
    var fr := Parsed(raw);
    StepMarker(r, env, t, u, raw.tenant, raw.key);
    StepFlowRow(r, env, t, u, FlowK(raw.tenant, FlowId(env)));
    ParsedLength(raw);
    forall i: nat | i < |fr.steps| ensures StepStored(u, raw, FlowId(env), i, StepRow(env, fr, i))
        && StepAnnounced(u, raw, FlowId(env), i) {
      StepRowsStored(r, env, t, u, raw, i);
    }
  }

  lemma {:induction false} ParsedLength(raw: FlowReq)
    ensures |Parsed(raw).steps| == |raw.steps|
  {
  }

  /** What the client of a flow is told: its id, that it is completed, and per step, in order, the submitted step id
      and the id of the journal stored for it. */
  ghost predicate FlowTold(resp: Response, flowId: string, rows: seq<FlowStep>) {
    && resp.FlowResponse? && resp.flowRunId == flowId && resp.status == Completed && |resp.results| == |rows|
    && forall i | 0 <= i < |rows| ::
         resp.results[i].stepId == rows[i].stepId && resp.results[i].journalId == rows[i].journalId
  }

  /** A flow submission that commits stores its flow and tells the client about it. */
  lemma {:induction false} SubmissionStored(raw: FlowReq, env: Env, t: Table, u: Table)
      returns (flowId: string, rows: seq<FlowStep>)
    requires Takes(Request.ExecuteFlow(raw), env, t, u) && DistinctIds(env)
    ensures FlowStored(u, raw, flowId, rows) && FIdempK(raw.tenant, raw.key) !in t
    ensures Alone(Request.ExecuteFlow(raw), env, t).answer.Ok?
            && FlowTold(Alone(Request.ExecuteFlow(raw), env, t).answer.value, flowId, rows)
  {
    hide Takes, FlowSpec, DistinctIds, FlowStored, StepRows, ParseSteps, FlowId;
    var r := Request.ExecuteFlow(raw);
    TakesParts(r, env, t, u);
    SubmissionPosts(raw, env, t, u);
    flowId, rows := FlowId(env), StepRows(env, Parsed(raw), |Parsed(raw).steps|);
    PostedStored(r, env, t, u, raw);
    PostedAnswer(raw, env, t, u);
    StepMarker(r, env, t, u, raw.tenant, raw.key);
    StepFlowRow(r, env, t, u, FlowK(raw.tenant, FlowId(env)));
  }

  lemma {:induction false} SubmissionPosts(raw: FlowReq, env: Env, t: Table, u: Table)
    requires Takes(Request.ExecuteFlow(raw), env, t, u)
    ensures PostedBy(Request.ExecuteFlow(raw), env, t) == Some(Parsed(raw))
  {
    hide FlowSpec, AllHold, Written, Classify, ParseSteps, Results;
    var r := Request.ExecuteFlow(raw);
    AloneIs(r, env, t);
    if FlowSpec(env, raw, t).FlowReplay? {
      assert |AddAll(Empty, []).puts| == 0;
    }
  }

  /** A submission under the key of a stored flow writes nothing and tells the client about that flow. */
  lemma {:induction false} ReplayTold(raw: FlowReq, env: Env, t: Table, stored: FlowReq, flowId: string,
      rows: seq<FlowStep>)
    requires Sound(t) && AmountsOk(raw.steps) && FlowStored(t, stored, flowId, rows)
    requires stored.tenant == raw.tenant && stored.key == raw.key
    ensures var res := Alone(Request.ExecuteFlow(raw), env, t);
            res.wrote == None && res.answer.Ok? && FlowTold(res.answer.value, flowId, rows)
  {
    hide AmountsOk, StepStored, StepAnnounced, AllHold, Written, Classify, RefsOf, Post, FirstProblem, ParseSteps,
      Alone;
    AloneIs(Request.ExecuteFlow(raw), env, t);
    assert FlowSpec(env, raw, t).FlowReplay?;
    assert |AddAll(Empty, []).puts| == 0;
  }

  // ------------------------------------------------------------------------------------------
  // Reservations
  // ------------------------------------------------------------------------------------------

  /** A flow of one transfer. */
  ghost predicate IsTransfer(raw: FlowReq, tenant: string, kind: string, key: string, step: string, event: string,
      debit: BalRef, credit: BalRef, amount: int) {
    && raw.tenant == tenant && raw.flowType == kind && raw.key == key
    && Transfers(raw, debit, credit, amount) && raw.steps[0].stepId == step && raw.steps[0].eventId == event
  }

  /** The flow inside each reservation handler: a creation debits the reserved account and credits the source, a
      commit debits the destination and credits the reserved account, a release or expiry debits the source. */
  lemma {:induction false} InnerFlowIs(r: Request, t: Table)
    requires Sound(t) && WayOf(r, t).Flows? && !r.ExecuteFlow?
    ensures r.CreateReservation? ==>
              IsTransfer(WayOf(r, t).raw, r.tenant, "CREATE_RESERVATION", r.key + ":create", "reserve",
                r.key + ":reserve", BalRef(r.reserved, r.currency), BalRef(r.source, r.currency), r.amount)
    ensures Updates(r) ==> RowOf(r, t).Some?
    ensures r.CommitReservation? ==>
              var res := RowOf(r, t).value.res; var key := r.reservation + ":commit:" + r.key;
              IsTransfer(WayOf(r, t).raw, r.tenant, "COMMIT_RESERVATION", key, "commit", key,
                BalRef(r.destination, res.currency), BalRef(res.reservedAccountId, res.currency), r.amount)
    ensures r.ReleaseReservation? ==>
              var res := RowOf(r, t).value.res; var key := r.reservation + ":release:" + r.key;
              IsTransfer(WayOf(r, t).raw, r.tenant, "RELEASE_RESERVATION", key, "release", key,
                BalRef(res.sourceAccountId, res.currency), BalRef(res.reservedAccountId, res.currency), r.amount)
    ensures r.ExpireReservation? ==>
              var res := RowOf(r, t).value.res; var key := r.reservation + ":expire";
              IsTransfer(WayOf(r, t).raw, r.tenant, "EXPIRE_RESERVATION", key, "expire", key,
                BalRef(res.sourceAccountId, res.currency), BalRef(res.reservedAccountId, res.currency),
                res.outstanding)
  {
    hide Closed;
    if Updates(r) {
      var k := ResK(TenantOf(r), ReservationIdOf(r));
      assert Typed(k, t[k]);
      if r.CommitReservation? {
        var d := AccK(r.tenant, r.destination);
        assert Typed(d, t[d]);
      }
    }
  }

  /** A creation stores a new HELD reservation with the terms of the request, everything outstanding, the flow that
      its inner key now leads to and the server's clock, under a new id and the marker of its key; it is the
      answer, and its event waits in the outbox. */
  lemma {:induction false} CreationStored(r: Request, env: Env, t: Table, u: Table) returns (rsv: Reservation)
    requires Takes(r, env, t, u) && r.CreateReservation? && DistinctIds(env)
    ensures rsv == Reservation(rsv.id, r.tenant, r.key, r.source, r.reserved, r.currency, r.amount, r.amount, 0, 0,
        Held,
                     r.expiresAt, rsv.flowRunId, env.now)
    ensures ResK(r.tenant, rsv.id) !in t
    ensures var v := Lookup(u, ResK(r.tenant, rsv.id));
            v.Some? && v.value.ResItem? && v.value.reservation == rsv && v.value.resVersion == 1
    ensures RIdempK(r.tenant, r.key) !in t && Lookup(u, RIdempK(r.tenant, r.key)) == Some(RIdempItem(rsv.id))
    ensures Lookup(u, FIdempK(r.tenant, r.key + ":create")) == Some(FIdempItem(rsv.flowRunId))
    ensures Announced(u, r.tenant, rsv.id, "RESERVATION_CREATED", rsv.id + ":created")
    ensures Alone(r, env, t).answer == Ok(ReservationResponse(rsv))
  {
    hide Takes, FlowSpec, WayOf, ParseAccountOwner, DistinctIds, TailWrites;
    StepReservation(r, env, t, u, ResK("", ""));
    rsv := Created(r, env, t);
    StepReservation(r, env, t, u, ResK(r.tenant, rsv.id));
    CreationMarker(r, env, t, u);
    CreationFlow(r, env, t, u);
    CreationEvent(r, env, t, u);
    CreationAnswer(r, env, t, u);
  }

  lemma {:induction false} CreationMarker(r: Request, env: Env, t: Table, u: Table)
    requires Takes(r, env, t, u) && r.CreateReservation?
    requires WayOf(r, t).Flows? && !FlowSpec(env, WayOf(r, t).raw, t).FlowFail?
    ensures RIdempK(r.tenant, r.key) !in t
    ensures Lookup(u, RIdempK(r.tenant, r.key)) == Some(RIdempItem(Created(r, env, t).id))
  {
    hide Takes, FlowSpec, WayOf, ReservationToItem, LastItem, FirstCond, StepAll;
    var k := RIdempK(r.tenant, r.key);
    var raw, row := WayOf(r, t).raw, WayOf(r, t).row;
    var fres := FlowSpec(env, raw, t);
    StepLookup(r, env, t, u, k);
    FlowSkipsReservations(env, raw, t, k);
    StepAllCreates(r, env, t);
    var tail := CreateWrites(r, env, UsedOf(fres), fres.run.id);
    DistinctWrites(tail, 1);
    LastItemConcat(WritesOf(fres), tail, k);
    FirstCondConcat(WritesOf(fres), tail, k);
  }

  lemma {:induction false} StepAllCreates(r: Request, env: Env, t: Table)
    requires r.CreateReservation? && WayOf(r, t).Flows? && !FlowSpec(env, WayOf(r, t).raw, t).FlowFail?
    ensures var fres := FlowSpec(env, WayOf(r, t).raw, t);
            StepAll(r, env, t) == WritesOf(fres) + CreateWrites(r, env, UsedOf(fres), fres.run.id)
  {
    hide FlowSpec, WayOf, CreateWrites;
  }

  /** The flow of the new reservation is the one just posted, or the one already known under the inner key. */
  lemma {:induction false} CreationFlow(r: Request, env: Env, t: Table, u: Table)
    requires Takes(r, env, t, u) && r.CreateReservation?
    requires WayOf(r, t).Flows? && !FlowSpec(env, WayOf(r, t).raw, t).FlowFail?
    ensures Lookup(u, FIdempK(r.tenant, r.key + ":create")) == Some(FIdempItem(Created(r, env, t).flowRunId))
  {
    hide Takes, FlowSpec, WayOf, ReservationToItem, ParseSteps, RefsOf, StepRows, KnownFlow;
    TakesSound(r, env, t, u);
    InnerFlowIs(r, t);
    StepMarker(r, env, t, u, r.tenant, r.key + ":create");
    PostsIffNew(r, env, t);
    var raw := WayOf(r, t).raw;
    if PostedBy(r, env, t).Some? {
      PostedRun(env, raw, t);
    } else {
      ReplayRun(env, raw, t);
    }
  }

  lemma {:induction false} ReplayRun(env: Env, raw: FlowReq, t: Table)
    requires Sound(t) && FlowSpec(env, raw, t).FlowReplay?
    ensures Lookup(t, FIdempK(raw.tenant, raw.key)) == Some(FIdempItem(FlowSpec(env, raw, t).run.id))
  {
    hide AmountsOk, RefsOf, Post, FirstProblem, ParseSteps;
    PostNoConflict(env, Parsed(raw), LoadedAll(t, raw.tenant, RefsOf(Parsed(raw))));
    var m := FIdempK(raw.tenant, raw.key);
    var k := FlowK(raw.tenant, t[m].flowRunId);
    assert Typed(m, t[m]) && Typed(k, t[k]);
  }

  lemma {:induction false} CreationEvent(r: Request, env: Env, t: Table, u: Table)
    requires Takes(r, env, t, u) && r.CreateReservation?
    requires WayOf(r, t).Flows? && !FlowSpec(env, WayOf(r, t).raw, t).FlowFail?
    ensures var rsv := Created(r, env, t);
            Announced(u, r.tenant, rsv.id, "RESERVATION_CREATED", rsv.id + ":created")
  {
    hide Takes, FlowSpec, WayOf, UsedOf;
    OwnEventStored(r, env, t, u);
  }

  lemma {:induction false} CreationAnswer(r: Request, env: Env, t: Table, u: Table)
    requires Takes(r, env, t, u) && r.CreateReservation?
    requires WayOf(r, t).Flows? && !FlowSpec(env, WayOf(r, t).raw, t).FlowFail?
    ensures Alone(r, env, t).answer == Ok(ReservationResponse(Created(r, env, t)))
  {
    hide Alone, FlowSpec, AllHold, Written, Classify, AddAll, CreateWrites, NewReservation, CreateFlow;
    TakesParts(r, env, t, u);
    AloneIs(r, env, t);
    CreateAnswer(r, env, FlowSpec(env, WayOf(r, t).raw, t));
  }

  /** The reservation a commit, release or expiry works on, before and after. */
  ghost predicate Replaced(t: Table, u: Table, tenant: string, id: string, was: Reservation, now: Reservation) {
    var v, w := Lookup(t, ResK(tenant, id)), Lookup(u, ResK(tenant, id));
    && v.Some? && v.value.ResItem? && v.value.reservation == was
    && w.Some? && w.value.ResItem? && w.value.reservation == now && w.value.resVersion == v.value.resVersion + 1
  }

  lemma {:induction false} UpdateReplaces(r: Request, env: Env, t: Table, u: Table)
      returns (was: Reservation, now: Reservation)
    requires Takes(r, env, t, u) && Updates(r)
    ensures Replaced(t, u, TenantOf(r), ReservationIdOf(r), was, now) && now == Updated(r, was)
    ensures !Closed(was.status) && RowOf(r, t).Some? && RowOf(r, t).value.res == was && WayOf(r, t).Flows?
    ensures Alone(r, env, t).answer == Ok(if r.ExpireReservation? then NoResponse else ReservationResponse(now))
    ensures exists id :: Lookup(u, ObxK(id)) == Some(ObxItem(UpdatedEvent(r, id, was)))
  {
    hide Takes, FlowSpec, WayOf, ParseAccountOwner, Updated, Closed;
    var k := ResK(TenantOf(r), ReservationIdOf(r));
    StepReservation(r, env, t, u, k);
    UpdateFound(r, t);
    RowIs(r, t);
    was := t[k].reservation;
    now := u[k].reservation;
    UpdateAnswered(r, env, t, u);
    UpdateEvent(r, env, t, u);
  }

  lemma {:induction false} UpdateAnswered(r: Request, env: Env, t: Table, u: Table)
    requires Takes(r, env, t, u) && Updates(r) && WayOf(r, t).Flows? && WayOf(r, t).row == RowOf(r, t)
        && RowOf(r, t).Some?
    ensures Alone(r, env, t).answer
         == Ok(if r.ExpireReservation? then NoResponse else ReservationResponse(Updated(r, RowOf(r, t).value.res)))
  {
    hide Alone, FlowSpec, AllHold, Written, Classify, AddAll, UpdateWrites, Updated, UpdatedEvent, WayOf, RowOf, After;
    TakesParts(r, env, t, u);
    TakesIs(r, env, t, u);
    AloneIs(r, env, t);
    UpdateDone(r, env, RowOf(r, t).value, FlowSpec(env, WayOf(r, t).raw, t));
  }

  lemma {:induction false} UpdateEvent(r: Request, env: Env, t: Table, u: Table)
    requires Takes(r, env, t, u) && Updates(r) && WayOf(r, t).Flows? && WayOf(r, t).row == RowOf(r, t)
        && RowOf(r, t).Some?
    ensures exists id :: Lookup(u, ObxK(id)) == Some(ObxItem(UpdatedEvent(r, id, RowOf(r, t).value.res)))
  {
    hide Takes, FlowSpec, WayOf, UsedOf, RowOf;
    TakesIs(r, env, t, u);
    OwnEventStored(r, env, t, u);
  }

  /** A commit moves its amount from outstanding to committed, and closes the reservation as COMMITTED exactly when
      nothing is left. */
  lemma {:induction false} CommitStored(r: Request, env: Env, t: Table, u: Table)
      returns (was: Reservation, now: Reservation)
    requires Takes(r, env, t, u) && r.CommitReservation?
    ensures Replaced(t, u, r.tenant, r.reservation, was, now) && 0 < r.amount <= was.outstanding
    ensures now == was.(outstanding := now.outstanding, committed := now.committed, status := now.status)
    ensures now.outstanding == was.outstanding - r.amount && now.committed == was.committed + r.amount
    ensures now.status == if now.outstanding == 0 then Committed else Partial
    ensures Alone(r, env, t).answer == Ok(ReservationResponse(now))
    ensures Announced(u, r.tenant, r.reservation, "RESERVATION_COMMITTED", r.reservation + ":committed:" + r.key)
  {
    hide Takes, WayOf, RowOf, Replaced, Alone, Closed;
    was, now := UpdateReplaces(r, env, t, u);
    UpdateFound(r, t);
    RowNamed(r, env, t, u);
  }

  /** A release moves its amount from outstanding to released, and closes the reservation as RELEASED exactly when
      nothing is left. */
  lemma {:induction false} ReleaseStored(r: Request, env: Env, t: Table, u: Table)
      returns (was: Reservation, now: Reservation)
    requires Takes(r, env, t, u) && r.ReleaseReservation?
    ensures Replaced(t, u, r.tenant, r.reservation, was, now) && 0 < r.amount <= was.outstanding
    ensures now == was.(outstanding := now.outstanding, released := now.released, status := now.status)
    ensures now.outstanding == was.outstanding - r.amount && now.released == was.released + r.amount
    ensures now.status == if now.outstanding == 0 then Released else Partial
    ensures Alone(r, env, t).answer == Ok(ReservationResponse(now))
    ensures Announced(u, r.tenant, r.reservation, "RESERVATION_RELEASED", r.reservation + ":released:" + r.key)
  {
    hide Takes, WayOf, RowOf, Replaced, Alone, Closed;
    was, now := UpdateReplaces(r, env, t, u);
    UpdateFound(r, t);
    RowNamed(r, env, t, u);
  }

  /** An expiry that writes releases all that is outstanding and closes the reservation as EXPIRED. */
  lemma {:induction false} ExpiryStored(r: Request, env: Env, t: Table, u: Table)
      returns (was: Reservation, now: Reservation)
    requires Takes(r, env, t, u) && r.ExpireReservation?
    ensures Replaced(t, u, r.tenant, r.reservation, was, now) && was.outstanding != 0
    ensures now == was.(outstanding := 0, released := was.released + was.outstanding, status := Expired)
    ensures Alone(r, env, t).answer == Ok(NoResponse)
    ensures Announced(u, r.tenant, r.reservation, "RESERVATION_EXPIRED", r.reservation + ":expired")
  {
    hide Takes, WayOf, RowOf, Replaced, Alone, Closed;
    was, now := UpdateReplaces(r, env, t, u);
    UpdateFound(r, t);
    RowNamed(r, env, t, u);
  }

  /** A creation under the key of a stored reservation answers that reservation and writes nothing. */
  lemma {:induction false} CreationReplayed(r: Request, env: Env, t: Table, id: string)
    requires Sound(t) && r.CreateReservation? && r.amount > 0
    requires Lookup(t, RIdempK(r.tenant, r.key)) == Some(RIdempItem(id)) && ResK(r.tenant, id) in t
    ensures t[ResK(r.tenant, id)].ResItem?
    ensures Alone(r, env, t) == CallResult(Ok(ReservationResponse(t[ResK(r.tenant, id)].reservation)), None)
  {
    hide AllHold, Written, Classify, Alone;
    assert Typed(ResK(r.tenant, id), t[ResK(r.tenant, id)]);
    AloneIs(r, env, t);
    assert |AddAll(Empty, []).puts| == 0;
  }
}
